# MrMustard core in Dafny

A Dafny model of the core of MrMustard, a Python library for Gaussian and Fock-space simulation of
photonic quantum circuits. The model covers the bookkeeping that decides what the numerical code
is asked to compute: which modes, wires, axes, cutoffs and indices are passed along, which
combinations are rejected and with which error, and how data layouts convert into one another.
Numerical kernels (linear algebra, special functions, the amplitude recurrences) are parameters
of the model or are left out.

One Dafny module per core file:

| module | file | what it holds |
|---|---|---|
| `MatVecData` (matvec_data.dfy) | mrmustard/lab/representations/data/matvec_data.py | batches of (matrix, vector, coefficient) as a datatype; negation, scaling, division, sum, equality |
| `ABCData` (abc_data.dfy) | mrmustard/lab/representations/data/abc_data.py | Bargmann triples: batch products, outer sums, evaluation, the contraction plan of `@` (an `ABCObject` class whose index field `[]` sets) |
| `CompactFockAmplitudes` (compact_fock_amplitudes.dfy) | mrmustard/math/compactFockAmplitudes.py | binomial table, photon-number compositions and their memo table (a class), pivots, the staggered permutation, tuple-tail packers, and the sweep, proved to index every scratch array in bounds |
| `Neighbours` (neighbours.dfy) | mrmustard/math/lattice/neighbours.py | neighbour generators and `_fn` variants over a mutable pivot array, which each restores |
| `XPTensors` (xptensor.dfy) | mrmustard/utils/xptensor.py | the sparse phase-space tensor (a class): the xpxp/xxpp layouts and their round trips, like_0/like_1 null semantics, mode bookkeeping of `@`, `+`, `T`, scaling |
| `GaussianPlugin` (gaussian_plugin.dfy) | mrmustard/plugins/gaussianplugin.py | the plugin's (2, N, 2, N) tensor (a class), vacuum and thermal states, partitions of a covariance into subsystems, the partial trace, the mode split of general-dyne |
| `Fock` (fock.dfy) | mrmustard/physics/fock.py | one-hot Fock states, the argument checks of the Fock representation, axis orders of the partial trace, `U_to_choi` and `CPTP`, ket-ket fidelity truncation, autocutoff clipping |
| `Converters` (converters.dfy) | mrmustard/physics/converters.py | the shape resolution and length check of `to_fock` |
| `ArrayViews` (array_views.dfy) | mrmustard/physics/array_views.py | plain and conjugate array views |
| `CircuitComponents` (circuit_components.dfy) | mrmustard/lab_dev/circuit_components.py | circuit components (a class) and their wires, adjoint and dual views, the contraction indices of `@`, the combined Fock shape, the dispatch of `>>` |
| `TransformationsBase` (transformations_base.dfy) | mrmustard/lab_dev/transformations/base.py | the wire layouts and checks of unitaries, maps and channels, and the kind `>>` returns |
| `State` (state.dfy) | mrmustard/lab/abstract/state.py | the legacy `State` class: classification at construction, cached modes, `ket`/`dm` cutoff requests and re-cutoff, `[]`, `&`, `primal` cutoffs, the guards of `>>`, `+`, `==` |

Helper modules: `Wrappers` (Result and Outcome), `Seqs` (ranges, distinctness, permutations,
complements, sorted insertion), `Dense` (row-major dense tensors: flatten, reshape, transpose,
pad, slice) and `LinAlg` (matrices and vectors over the reals).

Python exceptions are modelled as values: `Result`/`Outcome` carry the exception type and, where
the code builds one, its message. Mutable objects (`CircuitComponent`, `State`, `XPTensor`, the
plugin tensor, the contraction-index holder, the partition memo) are classes whose methods state
their whole new state; everything that only computes a value is a function.

Integers are unbounded. Python sets that the code turns into tuples (`tuple(set & set)`) are
modelled in ascending order.

## Model

| member | source | states |
|---|---|---|
| MatVecData.Neg | mrmustard/lab/representations/data/matvec_data.py:43-45 | negation keeps A and b and negates every coefficient (each new coefficient plus the old one is 0) |
| MatVecData.NegInvolution | mrmustard/lab/representations/data/matvec_data.py:43-45 | negating twice gives the data back |
| MatVecData.TrueDiv | mrmustard/lab/representations/data/matvec_data.py:91-93 | division by a non-zero scalar keeps A and b; each new coefficient times x is the old one |
| MatVecData.TrueDivComposes | mrmustard/lab/representations/data/matvec_data.py:91-93 | dividing by 1 changes nothing, and dividing by x then y is dividing by x*y |
| MatVecData.Eq | mrmustard/lab/representations/data/matvec_data.py:48-57 | `==` against non-data is a TypeError; otherwise the verdict is `same` on the three fields, in the order mat, vec, coeffs |
| MatVecData.EqIsFieldwise | mrmustard/lab/representations/data/matvec_data.py:48-53 | with exact comparison, two data are equal exactly when mat, vec and coeffs are all equal |
| MatVecData.CoeffSum | mrmustard/lab/representations/data/matvec_data.py:63 | adding coefficient batches broadcasts: it succeeds exactly when the lengths agree or one batch has length 1, entrywise sum; otherwise ValueError |
| MatVecData.MapMatrices | mrmustard/lab/representations/data/matvec_data.py:70 | the reordering is applied to every matrix of the batch, in order |
| MatVecData.MapVectors | mrmustard/lab/representations/data/matvec_data.py:71 | the reordering is applied to every vector of the batch, in order |
| MatVecData.Add | mrmustard/lab/representations/data/matvec_data.py:60-76 | `+` with non-data is a TypeError; with the same A and b the coefficients are added; otherwise the batches are concatenated (self first), reordered from qpqp to qqpp, and the coefficients concatenated |
| MatVecData.AddNegIsZero | mrmustard/lab/representations/data/matvec_data.py:43-45 | adding the negation takes the same-A-and-b branch and gives all-zero coefficients on the same A and b (see also lines 60-64) |
| MatVecData.AddSameCommutes | mrmustard/lab/representations/data/matvec_data.py:60-64 | when A and b agree, `+` is commutative |
| ABCData.UniformDim | mrmustard/lab/representations/data/abc_data.py:113-114 | on a non-empty batch of n x n matrices, `dim` is n |
| ABCData.Flatten | mrmustard/lab/representations/data/abc_data.py:94-96 | the rows of a product comprehension laid end to end: n*m entries, and entry j of row i sits at position i*m + j |
| ABCData.FlattenAt | mrmustard/lab/representations/data/abc_data.py:94-96 | conversely, position k of the flattened list holds entry k mod m of row k div m |
| ABCData.OuterCoeffs | mrmustard/lab/representations/data/abc_data.py:96 | `[c1*c2 for c1 in s for c2 in t]` has entry s[i]*t[j] at position i*len(t) + j |
| ABCData.OuterBlockDiag | mrmustard/lab/representations/data/abc_data.py:94 | every entry of the outer block-diagonal list is square of size n+m, and entry i*len(t) + j is block_diag(s[i], t[j]) |
| ABCData.OuterConcat | mrmustard/lab/representations/data/abc_data.py:95 | every concatenated vector has length n+m, and entry i*len(t) + j is s[i] followed by t[j] |
| ABCData.OuterMatAdd | mrmustard/lab/representations/data/abc_data.py:82 | entry i*len(t) + j of the itertools.product list is s[i] + t[j] (matrices) |
| ABCData.OuterVecAdd | mrmustard/lab/representations/data/abc_data.py:83 | entry i*len(t) + j of the itertools.product list is s[i] + t[j] (vectors) |
| ABCData.And | mrmustard/lab/representations/data/abc_data.py:92-98 | the tensor product of uniform batches is uniform of dimension n+m, its batch sizes multiply, and every pair (i, j) gives block_diag(A_i, A'_j), b_i ++ b'_j and c_i*c'_j |
| ABCData.Scale | mrmustard/lab/representations/data/abc_data.py:86-88 | a scalar multiple keeps A and b and multiplies every coefficient by the scalar |
| ABCData.Product | mrmustard/lab/representations/data/abc_data.py:81-85 | the element formula of the product: for every pair (i, j) in product order, A_i + A'_j, b_i + b'_j and c_i*c'_j, at position i*len(t) + j |
| ABCData.Mul | mrmustard/lab/representations/data/abc_data.py:80-90 | `*` dispatches: another data gives the element formula of the product, a scalar scales, anything else is a TypeError |
| ABCData.ScaleUndoesTrueDiv | mrmustard/lab/representations/data/abc_data.py:86-88 | dividing by a non-zero scalar and then multiplying by it gives the data back |
| ABCData.ScaleMinusOneIsNeg | mrmustard/lab/representations/data/abc_data.py:86-88 | multiplying by -1 is the same as negating |
| ABCData.Value | mrmustard/lab/representations/data/abc_data.py:51-66 | the loop computes the sum over the zipped batch of exp(x^T A x / 2 + x^T b) * c |
| ABCData.ValueAtZero | mrmustard/lab/representations/data/abc_data.py:51-63 | where exp(0) = 1, the value at the zero vector is the sum of the first coefficients |
| ABCData.AsTuple | mrmustard/lab/representations/data/abc_data.py:155-156 | an int index is wrapped into a one-element tuple and a tuple is kept |
| ABCData.Noij | mrmustard/lab/representations/data/abc_data.py:114 | for i and j in range, every entry of `noij` is in [0, n) |
| ABCData.NoijIsComplement | mrmustard/lab/representations/data/abc_data.py:114 | for i < j in range, `noij` is the ascending list of [0, n) without i and j, of length n-2 |
| ABCData.ShiftedPairs | mrmustard/lab/representations/data/abc_data.py:109-113 | the contraction visits as many pairs as the shorter index tuple has |
| ABCData.ShiftRule | mrmustard/lab/representations/data/abc_data.py:111-113 | pair k: i drops by one when the previous shifted i is below it; j is offset by self.dim and drops by one when the previous shifted j is below it (see also lines 151-152) |
| ABCData.ShiftedUnroll | mrmustard/lab/representations/data/abc_data.py:111-113 | the visited pairs are the shifted pair k followed by the pairs of the rest, with pair k as the new previous pair |
| ABCData.FirstPairUnshifted | mrmustard/lab/representations/data/abc_data.py:109-113 | the first pair is compared against the 1e32 sentinel, so i is kept and j is only offset by self.dim |
| ABCData.Gathered | mrmustard/lab/representations/data/abc_data.py:115-142 | Abar, bbar, D, M and b_ are read from the graph at `noij` and at i, j, with the -1 on the off-diagonal of M |
| ABCData.GatherAll | mrmustard/lab/representations/data/abc_data.py:115-142 | the blocks are gathered from every batch entry of the graph, in batch order |
| ABCData.Planned | mrmustard/lab/representations/data/abc_data.py:111-152 | the plan for in-range pairs has one step per pair with its `noij`, and the last step determines the blocks |
| ABCData.PlannedStep | mrmustard/lab/representations/data/abc_data.py:111-152 | one more in-range pair adds one step and moves the gathered blocks to that pair |
| ABCData.PlanAdvance | mrmustard/lab/representations/data/abc_data.py:111-152 | one iteration of the contraction loop keeps the plan invariant, or finds the pair outside the graph |
| ABCData.PlanDone | mrmustard/lab/representations/data/abc_data.py:111-153 | when the zip is used up, the loop has produced exactly the planned contraction |
| ABCData.Plan | mrmustard/lab/representations/data/abc_data.py:103-153 | the contraction loop gives IndexError exactly when some shifted pair lies outside the graph, and otherwise the planned contraction of all shifted pairs |
| ABCData.ABCObject.constructor | mrmustard/lab/representations/data/abc_data.py:46-49 | a new object holds its data and dimension, with no contraction indices set |
| ABCData.ABCObject.GetItem | mrmustard/lab/representations/data/abc_data.py:155-157 | `obj[idx]` stores the index tuple on the object and returns the same object |
| ABCData.ABCObject.Matmul | mrmustard/lab/representations/data/abc_data.py:103-153 | `@` without indices on both sides is an AttributeError; otherwise it plans the contraction of the two objects' tensor product along the shifted index pairs |
| CompactFockAmplitudes.Pascal | mrmustard/math/compactFockAmplitudes.py:415-418 | the binomial coefficients that fill BINOM obey Pascal's rule |
| CompactFockAmplitudes.BinomDiagonal | mrmustard/math/compactFockAmplitudes.py:415-418 | binom(n, n) = 1 |
| CompactFockAmplitudes.BinomAbove | mrmustard/math/compactFockAmplitudes.py:415-418 | binom(m, n) = 0 for n > m |
| CompactFockAmplitudes.FillBinom | mrmustard/math/compactFockAmplitudes.py:415-418 | after the double loop, the fresh 60 x 60 table holds binom(m, n) at every (m, n) |
| CompactFockAmplitudes.FillBinomRow | mrmustard/math/compactFockAmplitudes.py:417-418 | one pass of the inner loop fills row m with binom(m, n) and leaves every other row unchanged |
| CompactFockAmplitudes.LenLvl | mrmustard/math/compactFockAmplitudes.py:8-16 | `len_lvl(M, N)` is the table entry binom(M-1+N, N) |
| CompactFockAmplitudes.Block | mrmustard/math/compactFockAmplitudes.py:41-42 | the block written at T has one row per sub-partition, each prefixed with n |
| CompactFockAmplitudes.LexLessDiffers | mrmustard/math/compactFockAmplitudes.py:20-45 | rows in lexicographic order are distinct |
| CompactFockAmplitudes.CompositionsCount | mrmustard/math/compactFockAmplitudes.py:8-16 | `get_partitions(M, N)` has binom(M-1+N, N) rows, the size `len_lvl` allocates (see also lines 35-45) |
| CompactFockAmplitudes.LevelCount | mrmustard/math/compactFockAmplitudes.py:39-43 | after k rounds of the fill loop, T plus the rows still to come make up len_lvl(M, N) |
| CompactFockAmplitudes.CompositionsValid | mrmustard/math/compactFockAmplitudes.py:20-45 | every row is a composition of N into M non-negative parts |
| CompactFockAmplitudes.LevelValid | mrmustard/math/compactFockAmplitudes.py:39-43 | the rows written in the first k rounds are compositions of N whose first entry is below k |
| CompactFockAmplitudes.CompositionsSorted | mrmustard/math/compactFockAmplitudes.py:20-45 | the rows come in strictly increasing lexicographic order |
| CompactFockAmplitudes.LevelSorted | mrmustard/math/compactFockAmplitudes.py:39-43 | the rows written so far are in strictly increasing lexicographic order |
| CompactFockAmplitudes.CompositionsComplete | mrmustard/math/compactFockAmplitudes.py:20-45 | every composition of N into M parts is a row of `get_partitions(M, N)` |
| CompactFockAmplitudes.SumNonNegative | mrmustard/math/compactFockAmplitudes.py:20-45 | a row of non-negative photon numbers has a non-negative total |
| CompactFockAmplitudes.LevelContains | mrmustard/math/compactFockAmplitudes.py:39-43 | the block written at round k-1 is part of every later prefix of the fill |
| CompactFockAmplitudes.PartitionTable.constructor | mrmustard/math/compactFockAmplitudes.py:419 | PARTITIONS starts empty |
| CompactFockAmplitudes.PartitionTable.GetPartitions | mrmustard/math/compactFockAmplitudes.py:20-45 | returns the compositions of N into M parts; a memo hit changes nothing; entries are only added, and (M, N) is stored when M > 1 |
| CompactFockAmplitudes.LevelStep | mrmustard/math/compactFockAmplitudes.py:39-42 | round n of the fill loop appends the block of rows whose first entry is n, binom(M-2+N-n, N-n) of them, and the rows written never pass the len_lvl(M, N) allocated |
| CompactFockAmplitudes.PartitionTable.FillRound | mrmustard/math/compactFockAmplitudes.py:40-42 | one round writes `get_partitions(M-1, N-n)` prefixed by n right after the T rows filled so far, keeps the memo valid and only adds entries to it |
| CompactFockAmplitudes.WriteBlock | mrmustard/math/compactFockAmplitudes.py:41-42 | the slice assignment puts the prefixed block right after the first T rows and keeps those rows |
| CompactFockAmplitudes.DiagPivot | mrmustard/math/compactFockAmplitudes.py:103-113 | the diagonal pivot has length 2M and entry k is params[k / 2], so params[i] sits at positions 2i and 2i+1 |
| CompactFockAmplitudes.OffDiagPivotShape | mrmustard/math/compactFockAmplitudes.py:117-129 | the off-diagonal pivot for mode d differs from the diagonal pivot only at 2d, where it is one larger |
| CompactFockAmplitudes.CalcDiagPivot | mrmustard/math/compactFockAmplitudes.py:103-113 | the loop fills a fresh array with the diagonal pivot |
| CompactFockAmplitudes.CalcOffDiagPivot | mrmustard/math/compactFockAmplitudes.py:117-129 | the loop fills a fresh array with the off-diagonal pivot for mode d |
| CompactFockAmplitudes.RowIncrements | mrmustard/math/compactFockAmplitudes.py:146-147 | the stacked increments [0, M-1, ..., 2] have M-1 entries (one when M < 2) |
| CompactFockAmplitudes.CumSum | mrmustard/math/compactFockAmplitudes.py:146 | the cumulative sum has as many entries as its input |
| CompactFockAmplitudes.CumSumIsRowStart | mrmustard/math/compactFockAmplitudes.py:146-148 | entry k of `ids` is the number of pairs in the rows above row k |
| CompactFockAmplitudes.RowStartClosedForm | mrmustard/math/compactFockAmplitudes.py:133-148 | twice the start of row k is k(2M-k-1) |
| CompactFockAmplitudes.PairCountIsRowStart | mrmustard/math/compactFockAmplitudes.py:426 | the length M(M-1)/2 of arr11's second axis is the number of pairs above the diagonal |
| CompactFockAmplitudes.RowStartMonotone | mrmustard/math/compactFockAmplitudes.py:133-148 | rows start in increasing order, and a later row starts past the whole of an earlier one |
| CompactFockAmplitudes.PairIndexInRange | mrmustard/math/compactFockAmplitudes.py:133-148 | the index of a pair i0 < i1 lies in [0, M(M-1)/2), inside arr11's second axis (see also line 426) |
| CompactFockAmplitudes.PairIndexRowMajor | mrmustard/math/compactFockAmplitudes.py:133-148 | pairs in lexicographic order get strictly increasing indices, so distinct pairs get distinct indices |
| CompactFockAmplitudes.PairIndexOnto | mrmustard/math/compactFockAmplitudes.py:133-148 | every index of [0, M(M-1)/2) belongs to some pair |
| CompactFockAmplitudes.FindRow | mrmustard/math/compactFockAmplitudes.py:133-148 | an index past the start of row k lies in some row i0 >= k |
| CompactFockAmplitudes.Staggered | mrmustard/math/compactFockAmplitudes.py:152-162 | the staggered range has 2M entries |
| CompactFockAmplitudes.StaggeredInvolution | mrmustard/math/compactFockAmplitudes.py:152-162 | the staggered range is a permutation of [0, 2M) that is its own inverse |
| CompactFockAmplitudes.CalcStaggeredRange | mrmustard/math/compactFockAmplitudes.py:152-162 | the two loops fill a fresh array with [1, 0, 3, 2, ...] |
| CompactFockAmplitudes.RemovePair | mrmustard/math/compactFockAmplitudes.py:81-98 | params without positions i0 < i1 keeps the order of the remaining entries |
| CompactFockAmplitudes.FillTupleTailArray0 | mrmustard/math/compactFockAmplitudes.py:50-60 | positions 2..M+1 take params, in order; the rest of the tuple is kept |
| CompactFockAmplitudes.FillTupleTailArray2 | mrmustard/math/compactFockAmplitudes.py:63-77 | positions 3..M+1 take params without entry idx0, in order; the rest is kept |
| CompactFockAmplitudes.FillTupleTailArray11 | mrmustard/math/compactFockAmplitudes.py:80-98 | positions 4..M+1 take params without entries idx0 < idx1, in order; the rest is kept |
| CompactFockAmplitudes.Repeat | mrmustard/math/compactFockAmplitudes.py:420-427 | `[x] * n` has max(n, 0) copies of x |
| CompactFockAmplitudes.Zeros | mrmustard/math/compactFockAmplitudes.py:428 | the zero tuple has n zeros |
| CompactFockAmplitudes.AllocateScratchSucceeds | mrmustard/math/compactFockAmplitudes.py:420-427 | `np.zeros` accepts all four scratch shapes exactly when cutoff >= 2 |
| CompactFockAmplitudes.ScratchRank | mrmustard/math/compactFockAmplitudes.py:420-428 | every scratch array has rank M+2, the length of the zero tuple that indexes it |
| CompactFockAmplitudes.FitsConcat | mrmustard/math/compactFockAmplitudes.py:420-427 | an index head that fits extended by photon numbers below the cutoff fits the shape extended by cutoffs |
| CompactFockAmplitudes.Array2IndexFits | mrmustard/math/compactFockAmplitudes.py:63-77 | an arr1/arr2 index built from an in-range head and an admissible row is in bounds for reading and writing (see also lines 421, 427) |
| CompactFockAmplitudes.Array11IndexFits | mrmustard/math/compactFockAmplitudes.py:80-98 | an arr11 index built from an in-range head and an admissible row is in bounds for reading and writing (see also line 426) |
| CompactFockAmplitudes.PackArray2 | mrmustard/math/compactFockAmplitudes.py:63-77 | packing into the zero tuple gives [0, a, b] followed by params without entry i |
| CompactFockAmplitudes.PackArray11 | mrmustard/math/compactFockAmplitudes.py:80-98 | packing into the zero tuple gives [0, a, b, c] followed by params without entries i0 < i1 |
| CompactFockAmplitudes.PackArray0 | mrmustard/math/compactFockAmplitudes.py:50-60 | packing into the zero tuple gives [0, 0] followed by params |
| CompactFockAmplitudes.Array0IndexFits | mrmustard/math/compactFockAmplitudes.py:420 | the arr0 index of an admissible row is in bounds (see also lines 50-60) |
| CompactFockAmplitudes.UseDiagPivot | mrmustard/math/compactFockAmplitudes.py:313-359 | the pivot is read from arr0 first; every read and write is in bounds of the allocated arrays, and only arr1 is written |
| CompactFockAmplitudes.UseOffDiagPivot | mrmustard/math/compactFockAmplitudes.py:178-309 | the pivot is read from arr1, then arr0; every access is in bounds, and arr1 is never written |
| CompactFockAmplitudes.SafeConcat | mrmustard/math/compactFockAmplitudes.py:178-309 | safety of access logs is preserved by concatenation |
| CompactFockAmplitudes.Arr11Safe | mrmustard/math/compactFockAmplitudes.py:218-246 | in-bounds arr11 accesses of the kind asked for are safe (see also lines 274-306) |
| CompactFockAmplitudes.OffDiagArr2Read | mrmustard/math/compactFockAmplitudes.py:208-215 | the guarded arr2 read is in bounds and is a read of arr2 only |
| CompactFockAmplitudes.OffDiagArr0Arr2Writes | mrmustard/math/compactFockAmplitudes.py:257-270 | the writes go to arr0 and arr2 and are in bounds; arr0 is written exactly when every mode before d is 0, at the row with mode d raised by one |
| CompactFockAmplitudes.Array0WriteFits | mrmustard/math/compactFockAmplitudes.py:257-260 | the arr0 write index, mode d raised by one, is in bounds when params[d] < cutoff-1 |
| CompactFockAmplitudes.Arr11Access | mrmustard/math/compactFockAmplitudes.py:218-246 | one arr11 access is in bounds, at the pair index of (i0, i1) (see also lines 274-306) |
| CompactFockAmplitudes.OffDiagArr11Reads | mrmustard/math/compactFockAmplitudes.py:218-246 | both arr11 read loops stay in bounds and only read arr11 |
| CompactFockAmplitudes.OffDiagArr11Writes | mrmustard/math/compactFockAmplitudes.py:274-306 | both arr11 write loops stay in bounds and only write arr11 |
| CompactFockAmplitudes.SweepSafeConcat | mrmustard/math/compactFockAmplitudes.py:390-403 | safety of sweep logs is preserved by concatenation |
| CompactFockAmplitudes.SweepPivot | mrmustard/math/compactFockAmplitudes.py:392-403 | one pivot reads arr0 first, and all its accesses (diagonal, then every eligible off-diagonal) are in bounds |
| CompactFockAmplitudes.SweepLevel | mrmustard/math/compactFockAmplitudes.py:391-403 | a level visits exactly the rows whose largest entry is below the cutoff, with every access in bounds |
| CompactFockAmplitudes.SweepRow | mrmustard/math/compactFockAmplitudes.py:392-403 | one row of a level is visited exactly when its largest entry is below the cutoff, and the accesses it adds are in bounds |
| CompactFockAmplitudes.LevelVisits | mrmustard/math/compactFockAmplitudes.py:391-392 | a row is visited at level N exactly when it is admissible and sums to N |
| CompactFockAmplitudes.VisitedStep | mrmustard/math/compactFockAmplitudes.py:390-392 | after level count, the visited rows are exactly the admissible ones of weight below count+1 |
| CompactFockAmplitudes.FockRepresentationCompactNumba | mrmustard/math/compactFockAmplitudes.py:363-405 | arr0's origin is written first; every access is in bounds; the visited pivots are exactly the admissible rows of weight below (cutoff-1)M |
| CompactFockAmplitudes.FockRepresentationCompact | mrmustard/math/compactFockAmplitudes.py:408-429 | a cutoff below 2 is a ValueError from the allocation; otherwise the sweep writes arr0's origin first and keeps every access in bounds |
| Neighbours.Bump | mrmustard/math/lattice/neighbours.py:29-34 | the pivot with entry i moved by delta and every other entry unchanged |
| Neighbours.AllNeighbours | mrmustard/math/lattice/neighbours.py:27-34 | there are two neighbours per mode |
| Neighbours.LowerNeighbours | mrmustard/math/lattice/neighbours.py:56-61 | there is one lower neighbour per mode |
| Neighbours.UpperNeighbours | mrmustard/math/lattice/neighbours.py:81-86 | there is one upper neighbour per mode |
| Neighbours.BitstringNeighbours | mrmustard/math/lattice/neighbours.py:106-116 | there is one neighbour per bit of the bitstring |
| Neighbours.AllNeighboursDiffer | mrmustard/math/lattice/neighbours.py:27-34 | neighbour k differs from the pivot only at mode k/2, by +1 when k is even and by -1 when k is odd |
| Neighbours.AllInterleavesUpperLower | mrmustard/math/lattice/neighbours.py:27-34 | the full neighbour list interleaves the upper and lower neighbours of each mode, upper first (see also lines 56-61, 81-86) |
| Neighbours.UpperLowerInverse | mrmustard/math/lattice/neighbours.py:56-61 | lowering mode i of the upper neighbour in mode i gives the pivot back, and raising the lower one does too (see also lines 81-86) |
| Neighbours.BitstringExtremes | mrmustard/math/lattice/neighbours.py:106-116 | an all-non-zero bitstring gives the lower neighbours and an all-zero bitstring the upper ones |
| Neighbours.UpperIsNotLower | mrmustard/math/lattice/neighbours.py:56-61 | on a non-empty pivot the upper and lower neighbour lists differ (see also lines 81-86) |
| Neighbours.AllNeighboursGen | mrmustard/math/lattice/neighbours.py:27-34 | the generator yields exactly the full neighbour list (each snapshot of the mutated pivot) and leaves the pivot as it was |
| Neighbours.LowerNeighboursGen | mrmustard/math/lattice/neighbours.py:56-61 | the generator yields exactly the lower neighbours and restores the pivot |
| Neighbours.UpperNeighboursGen | mrmustard/math/lattice/neighbours.py:81-86 | the generator yields exactly the upper neighbours and restores the pivot |
| Neighbours.BitstringNeighboursGen | mrmustard/math/lattice/neighbours.py:106-116 | the generator yields exactly the bitstring neighbours and restores the pivot |
| Neighbours.CopyRow | mrmustard/math/lattice/neighbours.py:43 | `Z[r] = pivot` copies the pivot into row r and leaves every other row unchanged (see also lines 70, 95) |
| Neighbours.AllNeighboursFn | mrmustard/math/lattice/neighbours.py:38-47 | the returned 2M x M array holds the full neighbour list row by row, and the pivot is restored |
| Neighbours.LowerNeighboursFn | mrmustard/math/lattice/neighbours.py:65-72 | the returned M x M array holds the lower neighbours row by row, and the pivot is restored |
| Neighbours.UpperNeighboursFnAsWritten | mrmustard/math/lattice/neighbours.py:90-97 | as written, the rows of `upper_neighbors_fn` are the lower neighbours (it subtracts 1) |
| Neighbours.UpperNeighboursFnAsWrittenDiffers | mrmustard/math/lattice/neighbours.py:90-97 | on the pivot [0], the as-written result [[-1]] differs from the upper neighbour [[1]] |
| Neighbours.UpperNeighboursFn | mrmustard/math/lattice/neighbours.py:90-97 | the corrected function returns the upper neighbours row by row, as its name and doc comment say, and restores the pivot |
| XPTensors.TwoByTwo | mrmustard/utils/xptensor.py:126-135 | a 2 x 2 block is determined by its four entries, the unit of both the xpxp and the xxpp layouts |
| XPTensors.FromXpxp | mrmustard/utils/xptensor.py:471-483 | a (2n, 2m) xpxp matrix becomes n x m blocks of 2 x 2 |
| XPTensors.ToXpxp | mrmustard/utils/xptensor.py:126-130 | n x m blocks become a (2n, 2m) matrix |
| XPTensors.FromXpxpEntry | mrmustard/utils/xptensor.py:471-483 | entry (s, t) of block (i, j) is entry (2i + s, 2j + t) of the xpxp matrix |
| XPTensors.XpxpRoundTrip | mrmustard/utils/xptensor.py:126-130 | `to_xpxp` undoes `from_xpxp` on every matrix |
| XPTensors.XpxpRoundTripBlocks | mrmustard/utils/xptensor.py:471-483 | `from_xpxp` undoes `to_xpxp` on every block matrix: the layouts are in bijection |
| XPTensors.ToXpxpEntry | mrmustard/utils/xptensor.py:126-130 | entry (2i + s, 2j + t) of the xpxp matrix is entry (s, t) of block (i, j) |
| XPTensors.XpxpBlock | mrmustard/utils/xptensor.py:471-483 | block (i, j) is unchanged by `to_xpxp` followed by `from_xpxp` |
| XPTensors.FromXpxpVec | mrmustard/utils/xptensor.py:515-524 | a 2n xpxp vector becomes n (x, p) pairs |
| XPTensors.ToXpxpVec | mrmustard/utils/xptensor.py:126-130 | n pairs become a 2n vector |
| XPTensors.XpxpVecRoundTrip | mrmustard/utils/xptensor.py:126-130 | `to_xpxp` undoes `from_xpxp` on every vector |
| XPTensors.XpxpVecRoundTripBlocks | mrmustard/utils/xptensor.py:515-524 | `from_xpxp` undoes `to_xpxp` on every list of pairs |
| XPTensors.FromXxpp | mrmustard/utils/xptensor.py:456-468 | a (2n, 2m) xxpp matrix becomes n x m blocks of 2 x 2 |
| XPTensors.ReshapeBound | mrmustard/utils/xptensor.py:132-135 | a (2, 2, n, m) array has as many entries as a (2n, 2m) one, so the reshape is total |
| XPTensors.ToXxppAsWritten | mrmustard/utils/xptensor.py:132-146 | the matrix `to_xxpp` computes: the `modes_last` layout (2, 2, n, m) reshaped straight to (2n, 2m), of the right shape |
| XPTensors.ToXxpp | mrmustard/utils/xptensor.py:132-146 | the xxpp matrix `from_xxpp` reads, of shape (2n, 2m) |
| XPTensors.XxppRoundTrip | mrmustard/utils/xptensor.py:456-468 | the corrected `to_xxpp` undoes `from_xxpp` on every matrix |
| XPTensors.XxppEntry | mrmustard/utils/xptensor.py:456-468 | entry (r, c) of an xxpp matrix is unchanged by `from_xxpp` followed by the corrected `to_xxpp` |
| XPTensors.ToXxppEntry | mrmustard/utils/xptensor.py:132-135 | entry (r, c) of the corrected xxpp matrix is quadrature (r >= n, c >= m) of block (r mod n, c mod m) |
| XPTensors.FromXxppEntry | mrmustard/utils/xptensor.py:456-468 | entry (s, t) of block (i, j) is entry (s n + i, t m + j) of the xxpp matrix |
| XPTensors.XxppRoundTripBlocks | mrmustard/utils/xptensor.py:456-468 | `from_xxpp` undoes the corrected `to_xxpp` on every block matrix |
| XPTensors.Identity4 | mrmustard/utils/xptensor.py:456-468 | the two-mode identity is a 4 x 4 matrix |
| XPTensors.UnflattenThree | mrmustard/utils/xptensor.py:132-135 | position 3 of a row-major (2, 2, 2, 2) array is index (0, 0, 1, 1) |
| XPTensors.ToXxppAsWrittenBreaksRoundTrip | mrmustard/utils/xptensor.py:132-146 | the two-mode identity read with `from_xxpp` and written back with `to_xxpp` as written has a 1 at (0, 3), where the identity has 0 |
| XPTensors.FromXxppVec | mrmustard/utils/xptensor.py:502-512 | a 2n xxpp vector becomes the pairs (x[i], x[n + i]) |
| XPTensors.ToXxppVecAsWritten | mrmustard/utils/xptensor.py:132-146 | the vector `to_xxpp` computes, of length 2n |
| XPTensors.ToXxppVec | mrmustard/utils/xptensor.py:132-146 | all x entries then all p entries, of length 2n |
| XPTensors.XxppVecRoundTrip | mrmustard/utils/xptensor.py:502-512 | the corrected vector `to_xxpp` undoes `from_xxpp` |
| XPTensors.XxppVecRoundTripBlocks | mrmustard/utils/xptensor.py:502-512 | `from_xxpp` undoes the corrected vector `to_xxpp` |
| XPTensors.ToXxppVecAsWrittenBreaksRoundTrip | mrmustard/utils/xptensor.py:132-146 | the batch of one [(1, 2, 3, 4)] read with `from_xxpp` comes back from `to_xxpp` as written as [(1, 3, 2, 4)] |
| XPTensors.CoreShape | mrmustard/utils/xptensor.py:70 | the mode shape is (n, m) for a matrix tensor, (n) for a vector tensor |
| XPTensors.InitMatrixShape | mrmustard/utils/xptensor.py:61-83 | a (b, n, m, 2, 2) tensor passes the base checks exactly when it is declared a matrix with out-modes equal to or disjoint from the in-modes |
| XPTensors.InitVectorShape | mrmustard/utils/xptensor.py:61-83 | a (b, n, 2) tensor passes the base checks exactly when it is declared a like_0 vector |
| XPTensors.MatrixInit | mrmustard/utils/xptensor.py:441-454 | ValueError when neither or both of like_0/like_1 decide, or the modes are not two lists; like_0 is the given value or the negation of like_1; empty modes with a tensor default to range(shape[1]) and range(shape[2]), the two mode axes after the batch axis (`tensor.shape[1:3]`, line 451); an accepted header passes the base checks |
| XPTensors.VectorInit | mrmustard/utils/xptensor.py:494-500 | a vector is like_0 with no in-modes; empty modes with a tensor default to a range; a (b, n, 2) tensor is accepted and a (b, n, m, 2, 2) tensor rejected |
| XPTensors.TransposeBlocks | mrmustard/utils/xptensor.py:119-124 | an n x m block matrix becomes m x n, block (j, i) the transpose of block (i, j) |
| XPTensors.TransposeBlocksInvolution | mrmustard/utils/xptensor.py:119-124 | transposing twice gives back the block matrix |
| XPTensors.TransposePayload | mrmustard/utils/xptensor.py:119-124 | every batch entry is block-transposed, the mode shape swapped |
| XPTensors.TransposePayloadInvolution | mrmustard/utils/xptensor.py:119-124 | transposing a tensor twice gives it back |
| XPTensors.ScaleBlocks | mrmustard/utils/xptensor.py:200-208 | one batch entry of a matrix tensor scaled: every 2x2 block entry times the scalar, the (n, m, 2, 2) shape kept |
| XPTensors.ScaleVector | mrmustard/utils/xptensor.py:200-208 | one batch entry of a vector tensor scaled: every (x, p) entry times the scalar, the (n, 2) shape kept |
| XPTensors.ScalePayload | mrmustard/utils/xptensor.py:200-208 | every entry is multiplied by the scalar, the shape kept |
| XPTensors.AddBlocks | mrmustard/utils/xptensor.py:346-350 | two matrix batch entries of one shape add entrywise, the shape kept |
| XPTensors.AddVectors | mrmustard/utils/xptensor.py:346-350 | two vector batch entries of one shape add entrywise, the shape kept |
| XPTensors.AddPayload | mrmustard/utils/xptensor.py:346-350 | tensors of one shape add entrywise; tensors of different shapes raise ValueError |
| XPTensors.UncontractedElems | mrmustard/utils/xptensor.py:253-255 | the uncontracted modes of each side are exactly its modes the other side does not contract |
| XPTensors.SortedElems | mrmustard/utils/xptensor.py:309 | sorting keeps the set of modes |
| XPTensors.ProductModeLists | mrmustard/utils/xptensor.py:293-303 | a like_0 left operand keeps only its own out-modes, a like_0 right operand only its own in-modes; every out-mode is the left operand's or an uncontracted out-mode of the right one, and dually for in-modes |
| XPTensors.ModeAwareModes | mrmustard/utils/xptensor.py:247-309 | the mode lists alone, as the code would compute them if every product were built: matching modes and batch sizes would give (self.outmodes, other.inmodes) at line 252, but as written that branch raises first at line 249 or 251 (see ModeAwareMatmulAsWritten); otherwise ValueError when an uncontracted mode collides, and ascending lists with the membership properties above (the reshapes of the contracted blocks are checked by ContractedBlocksFit) |
| XPTensors.ContractedBlocksFit | mrmustard/utils/xptensor.py:261-270 | the reshape failures of the contracted blocks are ValueErrors, and with nothing contracted nothing can fail |
| XPTensors.ContractedBlocksFitExactly | mrmustard/utils/xptensor.py:261-270 | for tensors whose axes have the lengths of their mode lists and one batch size, the blocks reshape exactly when as many modes are contracted as self has out-modes and a right-hand matrix has that many in-modes |
| XPTensors.ContractedBlocksMismatch | mrmustard/utils/xptensor.py:264-267 | a matrix on modes [0, 1] times one on modes [0, 1, 2] raises, since the second block holds 36 entries where 16 are needed |
| XPTensors.ModeAwareMatmulAsWritten | mrmustard/utils/xptensor.py:247-284 | as written, the direct branch and a contracted matrix-matrix product raise ValueError, because `self.from_xxpp` on an XPMatrix passes no like flag and lines 441-443 reject that; so does a `math.block` of blocks with different batch sizes (MixesBatches); the result is Ok exactly when none of these happens and the mode check and the reshapes pass, and then it is the mode lists of ModeAwareModes |
| XPTensors.MixesBatches | mrmustard/utils/xptensor.py:271-284 | the result is assembled by `math.block` from `copied_rows` (other's batch) together with `copied_cols` or the contracted `bulk` (self's batch): self is like_1 and other has an uncontracted out-mode, and either other is like_1 with an uncontracted in-mode of self or some mode is contracted |
| XPTensors.UncontractedBatchMismatchRaises | mrmustard/utils/xptensor.py:271-279 | two like_1 matrices on modes ([0], [0]) and ([1], [1]) with batch sizes 1 and 2 raise at the `math.block` of line 279 |
| XPTensors.ModeAwareMatmul | mrmustard/utils/xptensor.py:247-309 | the intended product: the direct branch gives (self.outmodes, other.inmodes); otherwise it fails, with ValueError, exactly when a reshape fails, blocks of different batch sizes are assembled, or an uncontracted mode collides, and the lists are ascending, a like_0 side keeping only its own modes |
| XPTensors.ModeAwareMatmulAsWrittenDiffers | mrmustard/utils/xptensor.py:247-270 | the product as written succeeds only where the intended one does and then agrees with it; it fails where the intended one succeeds exactly in the direct branch and in a contracted matrix-matrix product |
| XPTensors.SquareOfMatrixRaises | mrmustard/utils/xptensor.py:247-249 | X @ X for a like_0 matrix on modes ([0], [0]) with one batch entry raises as written, where the intended product has modes ([0], [0]) |
| XPTensors.ContractedMatrixProductRaises | mrmustard/utils/xptensor.py:253-267 | for like_0 matrices on ([0, 1], [0, 1]) and ([1, 0], [1, 0]) with one batch size, the blocks reshape (ContractedBlocksFit passes) and the product still raises as written at line 267, where the intended product has modes ([0, 1], [0, 1]) |
| XPTensors.ReorderedModesProduct | mrmustard/utils/xptensor.py:253-309 | the mode lists of that product are ([0, 1], [0, 1]): both modes are contracted and the in-modes come back sorted |
| XPTensors.VecVecAsWritten | mrmustard/utils/xptensor.py:311-315 | matching modes and batch sizes pass exactly when the mode axes broadcast (line 313), else ValueError; otherwise IndexError exactly when a common mode is outside [-b, b) for a batch size b, since line 315 indexes the batch axis with mode numbers, and ValueError only for mode axes that do not broadcast; broadcasting axes with every common mode below both batch sizes always pass |
| XPTensors.VecVecSymmetric | mrmustard/utils/xptensor.py:311-315 | the outcome of `v @ w` and `w @ v` is the same |
| XPTensors.VecVecIndexesBatchAxis | mrmustard/utils/xptensor.py:314-315 | vectors on modes [0, 1] and [1] with one batch entry each raise IndexError |
| XPTensors.VecVecDirectBroadcastFails | mrmustard/utils/xptensor.py:312-313 | two vectors on mode [0] with one batch entry and mode axes of lengths 3 and 2 raise ValueError in the direct branch |
| XPTensors.AddPlan | mrmustard/utils/xptensor.py:353-366 | the result modes are the sorted unions; the sum accumulates into self exactly when self's modes contain other's, into other only when other's contain self's |
| XPTensors.AddTargetSpansUnion | mrmustard/utils/xptensor.py:353-366 | the tensor the sum accumulates into already carries every mode of the union |
| XPTensors.XPTensor.constructor | mrmustard/utils/xptensor.py:61-83 | a tensor that passes the base checks is stored with its like_0 flag and its mode lists |
| XPTensors.XPTensor.IsCoherence | mrmustard/utils/xptensor.py:111-112 | only a matrix is a coherence block, and a matrix whose out- and in-mode sets differ is one, with the two sets disjoint |
| XPTensors.XPTensor.T | mrmustard/utils/xptensor.py:119-124 | a vector raises ValueError, a null matrix returns itself, any other matrix a new matrix holding the block transpose with the mode lists swapped |
| XPTensors.XPTensor.ScalarMul | mrmustard/utils/xptensor.py:200-212 | a like_1 null raises NotImplementedError, a like_0 null is returned unchanged, otherwise the tensor is scaled in place and the object returned |
| XPTensors.XPTensor.Matmul | mrmustard/utils/xptensor.py:214-240 | two nulls give a fresh null (like_1 only if both are), and a null operand yields the other or itself by its like_0 flag. A matrix or vector product ends as ModeAwareMatmulAsWritten says: the direct branch raises ValueError, and so do a contracted matrix-matrix product and blocks of different batch sizes assembled by `math.block`. Every other product that passes the mode check and the reshapes returns its mode lists: an uncontracted matrix-matrix product, and any product with a vector outside the direct branch. Two vectors give a scalar, or the IndexError or ValueError of VecVecAsWritten |
| XPTensors.XPTensor.Add | mrmustard/utils/xptensor.py:317-379 | ValueError for a vector plus a matrix, a coherence plus a non-coherence, or two like_1 nulls; two other nulls give a fresh null; a like_0 null yields the other operand, a like_1 null the NameError of its comprehension; matching modes add in place and return self; two like_1 tensors with unmatched modes raise ValueError, other unmatched sums the AttributeError of `self.batch` |
| XPTensors.NewMatrix | mrmustard/utils/xptensor.py:441-454 | `XPMatrix(...)` fails exactly as its checks say and otherwise is a new valid matrix holding the tensor |
| XPTensors.NewVector | mrmustard/utils/xptensor.py:494-500 | `XPVector(...)` fails exactly as its checks say and otherwise is a new valid like_0 vector holding the tensor |
| GaussianPlugin.ShapeCheckAsWritten | mrmustard/plugins/gaussianplugin.py:19-22 | as written the check passes a tensor of rank at least 4 when ANY of shape[0] == 2, shape[2] == 2, shape[3] == shape[1] holds; a failure is a ValueError |
| GaussianPlugin.ShapeCheck | mrmustard/plugins/gaussianplugin.py:19-22 | the check its message states: rank at least 4 and shape (2, N, 2, N, ...) |
| GaussianPlugin.ShapeCheckAsWrittenAcceptsNonPhaseShape | mrmustard/plugins/gaussianplugin.py:21-22 | shape (2, 3, 5, 7) passes the check as written and fails the intended one; every (2, n, 2, n) passes both |
| GaussianPlugin.Eye | mrmustard/plugins/gaussianplugin.py:17 | an n x n tensor with 1 on the diagonal and 0 elsewhere |
| GaussianPlugin.Zeros | mrmustard/plugins/gaussianplugin.py:15-16 | a tensor of the given shape whose every entry is 0 |
| GaussianPlugin.XxppPosition | mrmustard/plugins/gaussianplugin.py:39-43 | row s N + i of an xxpp matrix lies inside the 2N rows |
| GaussianPlugin.ReshapeEntry | mrmustard/plugins/gaussianplugin.py:39-43 | reshaping a (2N, 2N) matrix to (2, N, 2, N) puts entry (s N + i, t N + j) at (s, i, t, j) |
| GaussianPlugin.ReshapeSize | mrmustard/plugins/gaussianplugin.py:39-50 | (2, N, 2, N) and (2N, 2N) have the same number of entries |
| GaussianPlugin.Default | mrmustard/plugins/gaussianplugin.py:13-17 | without a tensor: the (2, N, 2, N) zeros when zero-based, else the reshaped identity, 1 exactly at s == t and i == j |
| GaussianPlugin.EyeEntry | mrmustard/plugins/gaussianplugin.py:17 | the reshaped 2N x 2N identity has 1 at (s, i, t, j) exactly when s == t and i == j |
| GaussianPlugin.FromXxpp | mrmustard/plugins/gaussianplugin.py:39-43 | the matrix reshaped to (2, N, 2, N), the entries in the same order; ValueError exactly when it does not have 4 N^2 entries |
| GaussianPlugin.ToXxpp | mrmustard/plugins/gaussianplugin.py:49-50 | the tensor reshaped to (2N, 2N); ValueError exactly when it does not have 4 N^2 entries |
| GaussianPlugin.XxppRoundTrip | mrmustard/plugins/gaussianplugin.py:39-50 | `to_xxpp` undoes `from_xxpp` and the converse, and entry (s N + i, t N + j) is quadratures (s, t) of modes (i, j) |
| GaussianPlugin.GatherIdentity | mrmustard/plugins/gaussianplugin.py:64-65 | gathering modes by the identity permutation on axes 1 and 3 changes nothing, so returning early at line 65 is sound |
| GaussianPlugin.CombinedModes | mrmustard/plugins/gaussianplugin.py:69-80 | the modes of a product or sum: strictly increasing, distinct, exactly the modes of either operand |
| GaussianPlugin.CombinedModesCommute | mrmustard/plugins/gaussianplugin.py:69-80 | the combined modes do not depend on operand order, and a sorted mode list combined with itself is itself |
| GaussianPlugin.Permuted | mrmustard/plugins/gaussianplugin.py:67 | entry k of the reordered modes is modes[perm[k]] |
| GaussianPlugin.PhaseTensor.constructor | mrmustard/plugins/gaussianplugin.py:13-28 | a tensor that passes the shape check as written (so also one of shape (2, 3, 5, 7)) is stored with its modes and its zero-based flag; nmodes is the number of modes |
| GaussianPlugin.PhaseTensor.Xxpp | mrmustard/plugins/gaussianplugin.py:49-50 | a held tensor converts to the (2N, 2N) matrix with its entries in the same order exactly when it has 4 N^2 entries, and raises ValueError otherwise; a (2, N, 2, N) tensor always converts |
| GaussianPlugin.PhaseTensor.ReorderModes | mrmustard/plugins/gaussianplugin.py:59-67 | ValueError for a permutation of the wrong length or with an entry outside range(nmodes); the identity changes nothing; an entry outside axis 1 or axis 3 of the tensor (which the check as written lets differ from nmodes) is an IndexError; otherwise axes 1 and 3 are gathered by perm and the mode list reordered the same way |
| GaussianPlugin.NewPhaseTensor | mrmustard/plugins/gaussianplugin.py:13-28 | ValueError when the tensor (or the default one) fails the shape check as written, TypeError when the modes are not a list, otherwise a new tensor holding exactly the arguments |
| GaussianPlugin.NewFromXxpp | mrmustard/plugins/gaussianplugin.py:39-43 | a matrix of the wrong size raises ValueError; otherwise a new tensor holding the reshaped matrix, or the default tensor without a matrix |
| GaussianPlugin.Diag | mrmustard/plugins/gaussianplugin.py:178 | the diagonal matrix of a vector |
| GaussianPlugin.VacuumState | mrmustard/plugins/gaussianplugin.py:120-131 | covariance hbar / 2 on the diagonal of a 2N x 2N matrix, zero elsewhere, and zero means |
| GaussianPlugin.ThermalState | mrmustard/plugins/gaussianplugin.py:167-180 | a diagonal covariance holding (2 nbar_i + 1) hbar / 2 at both quadratures of mode i, zero means |
| GaussianPlugin.ThermalWithoutPhotonsIsVacuum | mrmustard/plugins/gaussianplugin.py:120-180 | a thermal state with no photons in any mode is the vacuum |
| GaussianPlugin.PartitionIndices | mrmustard/plugins/gaussianplugin.py:476-477 | the A indices are the A modes followed by the same modes shifted by N; the B indices likewise for the remaining modes in ascending order |
| GaussianPlugin.PartitionIsPermutation | mrmustard/plugins/gaussianplugin.py:476-477 | for distinct A modes among range(N), the A indices followed by the B indices are a permutation of range(2N) |
| GaussianPlugin.PartitionCov | mrmustard/plugins/gaussianplugin.py:466-481 | the A block, the B block and the rows-A-columns-B block of cov at the partition indices; IndexError exactly when an A index falls outside the matrix |
| GaussianPlugin.PartitionMeans | mrmustard/plugins/gaussianplugin.py:483-495 | the means at the A indices and at the B indices; IndexError exactly when an A index falls outside the vector |
| GaussianPlugin.PartitionMeansIsPermutation | mrmustard/plugins/gaussianplugin.py:483-495 | for distinct A modes the two parts hold every mean exactly once |
| GaussianPlugin.TraceAsWritten | mrmustard/plugins/gaussianplugin.py:450-464 | the trace as written keeps only the indices i < N of kept modes, the x quadratures, in cov and in means |
| GaussianPlugin.Trace | mrmustard/plugins/gaussianplugin.py:450-464 | the trace as documented keeps both quadratures of each kept mode, in cov and in means |
| GaussianPlugin.TraceAsWrittenDropsMomenta | mrmustard/plugins/gaussianplugin.py:460-464 | on the one-mode vacuum with nothing discarded, the trace as written returns a 1 x 1 covariance while the intended one returns the state |
| GaussianPlugin.TraceNothing | mrmustard/plugins/gaussianplugin.py:450-464 | discarding no mode leaves the state unchanged |
| GaussianPlugin.ComplementOfNothing | mrmustard/plugins/gaussianplugin.py:461 | with no mode discarded, the kept modes are 0, 1, ..., N-1 in order |
| GaussianPlugin.GatherAtIdentity | mrmustard/plugins/gaussianplugin.py:462-463 | gathering rows, columns and means at the identity index list changes nothing |
| GaussianPlugin.TraceIsPartitionBlock | mrmustard/plugins/gaussianplugin.py:450-495 | the intended trace is the A block of `partition_cov` and the A part of `partition_means`, for A the kept modes |
| GaussianPlugin.DyneSplit | mrmustard/plugins/gaussianplugin.py:424-427 | the remaining modes are, in ascending order, the modes below N that are not measured; nB and nA are as the code computes them |
| GaussianPlugin.DyneSplitCounts | mrmustard/plugins/gaussianplugin.py:424-427 | when the measured modes are distinct modes of the state and the projector covers them, nA counts the remaining modes and the measured plus remaining modes are a permutation of range(N) |
| Fock.Cutoffs | mrmustard/physics/fock.py:44 | the state's cutoffs are the photon numbers plus one |
| Fock.FockState | mrmustard/physics/fock.py:35-46 | ValueError exactly when a photon number is -2 or less (a negative dimension of the zeros), IndexError exactly when none is and one is -1 (an empty axis cannot take index -1); otherwise an array of cutoffs n + 1 with 1 at index n and 0 at every other index |
| Fock.FockStateOneHot | mrmustard/physics/fock.py:44-45 | the row-major data of the Fock state has its single 1 at the flattened position of n |
| Fock.FockRepresentation | mrmustard/physics/fock.py:141-150 | ValueError when both flags or neither are given, or the unitary flag comes without choi_r; the mixed flag asks for the (full when mixed) state triple, the unitary flag for the (full when not unitary) transformation triple with choi_r |
| Fock.FockRepresentationAccepts | mrmustard/physics/fock.py:141-146 | a request is accepted exactly with the mixed flag alone, or the unitary flag and choi_r |
| Fock.Pairs | mrmustard/physics/fock.py:502-505 | entry 2k of the pair list is mode k and entry 2k + 1 is mode k + N |
| Fock.Destagger | mrmustard/physics/fock.py:503-506 | even positions then odd positions keep the length |
| Fock.DestaggerPairs | mrmustard/physics/fock.py:502-506 | destaggering the pairs lists the modes and then the modes shifted by N |
| Fock.TraceAxes | mrmustard/physics/fock.py:498-507 | the transposition puts the kept kets, the kept bras, the traced kets and the traced bras in that order |
| Fock.TraceAxesPermutation | mrmustard/physics/fock.py:498-507 | for distinct kept modes the axis order is a permutation of the 2N axes |
| Fock.Pick | mrmustard/physics/fock.py:507 | entry k of the transposed shape is the cutoff of axis axes[k] |
| Fock.TraceReshape | mrmustard/physics/fock.py:509-511 | the traced result keeps the first 2 len(keep) axes; a reshape of the wrong size raises ValueError |
| Fock.TraceShapeAsWritten | mrmustard/physics/fock.py:492-511 | the shape of `trace` as written: a non-permutation raises ValueError, otherwise 2 len(keep) axes remain |
| Fock.TraceShape | mrmustard/physics/fock.py:492-511 | the shape of `trace` with the intended reshape, with the same errors and 2 len(keep) axes |
| Fock.ProdConcat | mrmustard/physics/fock.py:509 | the size of a concatenation of shapes is the product of their sizes |
| Fock.TraceReshapeBalanced | mrmustard/physics/fock.py:509-510 | the intended reshape succeeds whenever the traced kets' cutoffs equal the traced bras' cutoffs |
| Fock.PickConcat | mrmustard/physics/fock.py:507 | picking axes distributes over concatenation of axis lists |
| Fock.PickShifted | mrmustard/physics/fock.py:496-507 | on a density-matrix shape, bra axis k + N has the cutoff of ket axis k |
| Fock.TraceTransposed | mrmustard/physics/fock.py:496-507 | the transposed density matrix has the kept cutoffs twice and the traced cutoffs twice |
| Fock.TraceShapeKeeps | mrmustard/physics/fock.py:492-511 | on a density matrix with distinct kept modes the intended trace succeeds and leaves exactly the kept kets' and bras' cutoffs |
| Fock.CubeFixed | mrmustard/physics/fock.py:509-510 | P^3 == P only for P at most 1, the size condition of the reshape as written |
| Fock.TraceShapeAsWrittenKeepAll | mrmustard/physics/fock.py:508-510 | keeping every mode, the trace as written raises ValueError exactly when the density matrix has two or more entries; the intended trace returns its shape |
| Fock.TraceShapeAsWrittenAgrees | mrmustard/physics/fock.py:508-510 | with at least one mode traced, the trace as written and the intended one agree |
| Fock.ChoiAxis | mrmustard/physics/fock.py:238-244 | each Choi axis comes from an axis of the outer product |
| Fock.ChoiAxes | mrmustard/physics/fock.py:238-244 | the axis order is the outer product's blocks [0, N), [2N, 3N), [N, 2N), [3N, 4N) |
| Fock.ChoiAxesPermutation | mrmustard/physics/fock.py:238-244 | the Choi axis order is a permutation of the 4N axes and its own inverse |
| Fock.ChoiShape | mrmustard/physics/fock.py:226-244 | a unitary of shape out ++ in gives a Choi tensor of shape out ++ out ++ in ++ in |
| Fock.CptpModes | mrmustard/physics/fock.py:388 | the number of modes is half the rank of a density matrix, the rank of a ket |
| Fock.CptpBlocks | mrmustard/physics/fock.py:389-392 | block b of indices is range(b m, (b + 1) m) |
| Fock.CptpBlocksTile | mrmustard/physics/fock.py:389-392 | the four blocks laid end to end are range(4 m), consecutive and disjoint |
| Fock.MinShape | mrmustard/physics/fock.py:297 | each cutoff is the smaller of the two shapes' cutoffs |
| Fock.KetPairTruncation | mrmustard/physics/fock.py:296-299 | both kets cut to the elementwise minimum shape, each entry the original entry at the same index |
| Fock.KetPairTruncationSameShape | mrmustard/physics/fock.py:296-299 | kets that already share a shape are not changed by the truncation |
| Fock.Trunc | mrmustard/physics/fock.py:109-111 | the int32 cast truncates toward zero |
| Fock.Clip | mrmustard/physics/fock.py:112 | clipping lands inside [lo, hi] and leaves values inside the interval alone; with lo > hi every value becomes hi, as numpy's clip gives |
| Fock.ModeCutoff | mrmustard/physics/fock.py:109-112 | one mode's cutoff: the minimum cutoff setting plus the truncated mean + stdev * factor, clipped into the bounds |
| Fock.Autocutoffs | mrmustard/physics/fock.py:91-112 | missing bounds come from the settings and every mode gets its clipped cutoff |
| Fock.AutocutoffsBounded | mrmustard/physics/fock.py:91-112 | with consistent bounds every cutoff lies between them, and without explicit bounds between the settings' minimum and maximum |
| Converters.ResolveShape | mrmustard/physics/converters.py:103-106 | a falsy shape becomes the maximal autocutoff on every variable, a non-zero int is repeated once per variable, a non-empty sequence is taken as it is |
| Converters.MismatchWord | mrmustard/physics/converters.py:108-110 | the message says "less" exactly when the shape is shorter than the number of variables, "more" otherwise |
| Converters.ZipLength | mrmustard/physics/converters.py:113 | `zip` stops at the shortest of A, b and c |
| Converters.ToFock | mrmustard/physics/converters.py:102-117 | a Fock representation is returned unchanged; a Bargmann one fails only with a shape of the wrong length, and otherwise becomes a Fock representation |
| Converters.ToFockBargmann | mrmustard/physics/converters.py:102-116 | a Bargmann representation converts exactly when the resolved shape has one cutoff per variable; the result holds one array per batch entry, in order, each computed with that shape, and remembers the Bargmann data; the error says "less" exactly when the shape is too short |
| Converters.ToFockBroadcastConverts | mrmustard/physics/converters.py:103-106 | a missing, zero or int shape never raises |
| Converters.ToFockIdempotent | mrmustard/physics/converters.py:102-117 | converting the result of a conversion changes nothing |
| ArrayViews.Conjugate | mrmustard/physics/array_views.py:60 | the conjugate negates the imaginary part |
| ArrayViews.ConjArray | mrmustard/physics/array_views.py:60 | `math.conj` conjugates every entry and keeps the shape |
| ArrayViews.ConjArrayInvolution | mrmustard/physics/array_views.py:60 | conjugating an array twice gives it back |
| ArrayViews.GetArray | mrmustard/physics/array_views.py:35-38 | with a truthy min_dim the array passes through `atleast_kd`, otherwise it is returned as it is |
| ArrayViews.Array | mrmustard/physics/array_views.py:40-60 | a plain view reads its array, a conjugate view reads it conjugated |
| ArrayViews.Conj | mrmustard/physics/array_views.py:47-63 | `conj()` turns a plain view into a conjugate view and back, over the same array and min_dim |
| ArrayViews.ConjInvolution | mrmustard/physics/array_views.py:47-63 | conjugating a view twice gives back the view and so its array |
| ArrayViews.ConjArrayOfConj | mrmustard/physics/array_views.py:40-63 | the array of the conjugated view is the conjugate of the view's array, for both kinds of view |
| CircuitComponents.Wires.AllModes | mrmustard/lab_dev/circuit_components.py:174-179 | the modes of a component: strictly increasing, exactly the modes on some wire |
| CircuitComponents.Wires.Adjoint | mrmustard/lab_dev/circuit_components.py:542-547 | the adjoint wires swap the ket and bra groups |
| CircuitComponents.Wires.Dual | mrmustard/lab_dev/circuit_components.py:576-581 | the dual wires swap the input and output groups |
| CircuitComponents.Wires.Offset | mrmustard/lab_dev/circuit_components.py:380-387 | a group's wires lie inside the wire count, starting at its offset |
| CircuitComponents.Wires.WireAt | mrmustard/lab_dev/circuit_components.py:380-387 | every index below the wire count names a group and a mode of that group, inside the group's index range |
| CircuitComponents.Wires.Index | mrmustard/lab_dev/circuit_components.py:380-387 | the index of the group's wire on a mode is a valid index whose wire is that group and mode |
| CircuitComponents.Wires.Indices | mrmustard/lab_dev/circuit_components.py:380-387 | one wire index per listed mode, in list order, each a valid index of that group's wire on that mode |
| CircuitComponents.IndexOf | mrmustard/lab_dev/circuit_components.py:401 | `list.index`: the first position holding the value |
| CircuitComponents.MakeWires | mrmustard/lab_dev/circuit_components.py:247-252 | wires built from four mode collections are well formed and hold exactly those modes in each group |
| CircuitComponents.WiresInvolutions | mrmustard/lab_dev/circuit_components.py:518-581 | adjoint and dual are involutions, commute, and keep the modes |
| CircuitComponents.OnWires | mrmustard/lab_dev/circuit_components.py:233-253 | ValueError exactly when a non-empty group's size differs from the number of distinct new modes; otherwise `set(modes)` on exactly the non-empty groups |
| CircuitComponents.OnWiresKeepsLayout | mrmustard/lab_dev/circuit_components.py:233-253 | remapping keeps the wire groups, the wire count and the ket/bra sides, and puts the component on exactly the given modes |
| CircuitComponents.OnWiresSameModes | mrmustard/lab_dev/circuit_components.py:233-253 | a component already on `set(modes)` in every non-empty group is unchanged by `on` |
| CircuitComponents.RShiftPlan | mrmustard/lab_dev/circuit_components.py:436-465 | the dispatch of `>>`: direct contraction, contraction with the other's adjoint or with self's adjoint as the wires' sides say, ValueError exactly for the pairs the code rejects |
| CircuitComponents.RShiftPlanAdjoint | mrmustard/lab_dev/circuit_components.py:436-465 | taking the adjoint of both operands picks the same contraction |
| CircuitComponents.MatmulIndices | mrmustard/lab_dev/circuit_components.py:373-389 | the contracted bra modes are exactly self's output bras that are other's input bras, likewise for kets; each index pair names self's output wire and other's input wire on the same mode, bras first |
| CircuitComponents.MatmulIndicesDistinct | mrmustard/lab_dev/circuit_components.py:373-389 | no wire of either side is contracted twice |
| CircuitComponents.KeepInIncreasing | mrmustard/lab_dev/circuit_components.py:381 | filtering ascending modes keeps them ascending |
| CircuitComponents.ShapeOf | mrmustard/lab_dev/circuit_components.py:397-403 | a wire id takes self's Fock shape entry when self has it, else other's; an id on neither raises ValueError |
| CircuitComponents.CombineFockShapes | mrmustard/lab_dev/circuit_components.py:391-406 | ValueError exactly when some new wire id is on neither component; otherwise, for any index list perm into the new wires, entry j is the shape entry of new wire perm[j] |
| CircuitComponents.ParameterCheck | mrmustard/lab_dev/circuit_components.py:149-152 | a scalar is accepted, an array only with length 1 or one entry per mode; otherwise ValueError |
| CircuitComponents.ParameterSet.constructor | mrmustard/lab_dev/circuit_components.py:75 | a component's new parameter set is empty |
| CircuitComponents.ParameterSet.AddParameter | mrmustard/lab_dev/circuit_components.py:153 | the parameter is appended to the set |
| CircuitComponents.CircuitComponent.Wires | mrmustard/lab_dev/circuit_components.py:202-207 | a plain component shows its own wires, an adjoint view the adjoint and a dual view the dual of the viewed component's wires |
| CircuitComponents.CircuitComponent.Modes | mrmustard/lab_dev/circuit_components.py:174-179 | the modes are ascending |
| CircuitComponents.CircuitComponent.constructor | mrmustard/lab_dev/circuit_components.py:100-136 | a plain component holding the given name, representation and wires, with a fresh empty parameter set and no Fock shape yet |
| CircuitComponents.CircuitComponent.LightCopy | mrmustard/lab_dev/circuit_components.py:223-231 | a new object with every attribute of this one; the parameter set is the very same object, shared by reference |
| CircuitComponents.CircuitComponent.On | mrmustard/lab_dev/circuit_components.py:233-268 | ValueError exactly when the remapping does; otherwise a light copy whose wires are the remapped wires, this component unchanged |
| CircuitComponents.CircuitComponent.AddParameter | mrmustard/lab_dev/circuit_components.py:138-154 | the length check decides; on success the parameter joins the shared parameter set (so every copy or view holding that set sees it) and becomes an attribute of this object under its name; nothing else changes |
| CircuitComponents.CircuitComponent.FockShape | mrmustard/lab_dev/circuit_components.py:364-371 | the stored Fock shape, or one created on first read with one None per wire; a view reads and creates the one of the component it views |
| CircuitComponents.CircuitComponent.Combine | mrmustard/lab_dev/circuit_components.py:316-336 | ValueError exactly when the wires differ; otherwise a new plain component with these wires, the combined representation, and the common name or "" |
| CircuitComponents.CircuitComponent.Add | mrmustard/lab_dev/circuit_components.py:316-325 | `+` fails exactly on different wires and otherwise adds the representations, keeping the wires and the common name |
| CircuitComponents.CircuitComponent.Sub | mrmustard/lab_dev/circuit_components.py:327-336 | `-` fails exactly on different wires and otherwise subtracts the representations, keeping the wires and the common name |
| CircuitComponents.CircuitComponent.NewView | mrmustard/lab_dev/circuit_components.py:506-508 | a view copies the component's attributes, shares its parameter set, and holds a fresh light copy of it |
| CircuitComponents.CircuitComponent.Adjoint | mrmustard/lab_dev/circuit_components.py:209-214 | the adjoint view of a component shows the adjoint wires; the adjoint of an adjoint view is a plain copy of the viewed component |
| CircuitComponents.CircuitComponent.Dual | mrmustard/lab_dev/circuit_components.py:216-221 | the dual view of a component shows the dual wires; the dual of a dual view is a plain copy of the viewed component |
| CircuitComponents.AddParameterToLightCopy | mrmustard/lab_dev/circuit_components.py:223-231 | a parameter added through a light copy appears in the original's parameter set, while the attribute is set on the copy only (see also lines 138-154) |
| CircuitComponents.AdjointTwice | mrmustard/lab_dev/circuit_components.py:526-531 | the adjoint of the adjoint, and the dual of the dual, is a plain component with the original wires, representation and name |
| TransformationsBase.NameOrClass | mrmustard/lab_dev/transformations/base.py:127 | a missing or empty name becomes the class name; any other name is kept |
| TransformationsBase.OperationWires | mrmustard/lab_dev/transformations/base.py:116-128 | an operation has only ket wires: `modes_in` on the output kets and `modes_out` on the input kets, as written |
| TransformationsBase.MapWires | mrmustard/lab_dev/transformations/base.py:192-206 | a map has the out modes on both output groups and the in modes on both input groups |
| TransformationsBase.MapWiresSelfAdjoint | mrmustard/lab_dev/transformations/base.py:192-206 | a map's wires are their own adjoint, and their dual is the map with in and out swapped |
| TransformationsBase.TransformationSides | mrmustard/lab_dev/transformations/base.py:113-206 | an operation on some mode has ket wires and no bra wires; a map has both |
| TransformationsBase.NewOperation | mrmustard/lab_dev/transformations/base.py:116-130 | a new plain component with the operation's wires, the representation and the resolved name |
| TransformationsBase.NewMap | mrmustard/lab_dev/transformations/base.py:192-206 | a new plain component with the map's wires, the representation and the resolved name |
| TransformationsBase.FromSymplecticWires | mrmustard/lab_dev/transformations/base.py:168-177 | ValueError exactly when the last two axes of the symplectic matrix are not 2 len(modes) long; otherwise the modes on the output and the input kets, no bra wires |
| TransformationsBase.FromSymplecticIsOperation | mrmustard/lab_dev/transformations/base.py:168-177 | a unitary from a symplectic matrix has the wires of an operation from its modes to its modes, and its dual has the same wires |
| TransformationsBase.FromSymplectic | mrmustard/lab_dev/transformations/base.py:157-179 | ValueError exactly on a mismatched shape; otherwise a new component with those wires, the representation, and the given name |
| TransformationsBase.InverseChecks | mrmustard/lab_dev/transformations/base.py:84-91 | the checks pass exactly with as many input as output wires, a Bargmann representation and a batch of at most one; every failure is NotImplementedError |
| TransformationsBase.InverseChecksTransformations | mrmustard/lab_dev/transformations/base.py:84-91 | operations and maps with as many distinct in as out modes always pass the wire check, so the representation alone decides |
| TransformationsBase.InverseAsWritten | mrmustard/lab_dev/transformations/base.py:84-97 | `inverse` never returns: it raises the check's NotImplementedError, or TypeError at the two-argument `_from_attributes` call |
| TransformationsBase.RShiftKind | mrmustard/lab_dev/transformations/base.py:141-155 | the kind the doc comments promise: unitary after unitary is a unitary, a channel is involved gives a channel, anything else a plain component; ValueError exactly when `>>` rejects the wires |
| TransformationsBase.RShiftKindAsWritten | mrmustard/lab_dev/transformations/base.py:149-155 | as written, a wire pair that `>>` rejects raises ValueError |
| TransformationsBase.RShiftKindAsWrittenDiffers | mrmustard/lab_dev/transformations/base.py:220-230 | as written `>>` raises TypeError exactly where a unitary or a channel is promised, and agrees with the intended kind everywhere else |
| TransformationsBase.UnitaryAfterUnitary | mrmustard/lab_dev/transformations/base.py:149-152 | two unitaries on mode 0 should compose to a unitary, and as written raise TypeError |
| TransformationsBase.RShiftKindClosed | mrmustard/lab_dev/transformations/base.py:141-155 | unitaries and channels are closed under `>>`, giving a channel as soon as a channel is involved |
| State.HalfLastAxis | mrmustard/lab/abstract/state.py:70-73 | half the last dimension, rounded down; a 0-d array has no last axis (IndexError) |
| State.Classify | mrmustard/lab/abstract/state.py:68-81 | covariance and means first, then eigenvalues and symplectic matrix, make a Gaussian state on half the last dimension; a ket gives one mode per axis and purity 1, a dm one mode per two axes; ValueError exactly when none of these is given |
| State.ResolveCutoffs | mrmustard/lab/abstract/state.py:213-217 | no request gives the state's own cutoffs; a None entry takes the own cutoff at its position, which is an IndexError past the end of the own cutoffs; IndexError otherwise never |
| State.ResolveCutoffsComplete | mrmustard/lab/abstract/state.py:213-217 | a request without None entries is taken as it is |
| State.Pads | mrmustard/lab/abstract/state.py:227 | one padding per zipped axis, the shortfall of the wanted cutoff or 0 |
| State.SliceShape | mrmustard/lab/abstract/state.py:232 | a Python slice stops at the end of the axis, and axes past the last cutoff stay whole |
| State.PadThenSlice | mrmustard/lab/abstract/state.py:227-232 | pad with zeros only when some padding is non-zero, then slice; a padding list shorter than the rank is a ValueError, more cutoffs than axes an IndexError |
| State.PadThenSliceEntries | mrmustard/lab/abstract/state.py:227-232 | with one cutoff and the matching padding per axis, the result has exactly the cutoffs as its shape, the old entries inside both shapes and zeros elsewhere |
| State.KetRecutoff | mrmustard/lab/abstract/state.py:225-233 | a ket is unchanged when the cutoffs are its current ones, else padded and sliced |
| State.KetRecutoffEntries | mrmustard/lab/abstract/state.py:225-233 | a ket re-cut to one cutoff per mode has those cutoffs as its shape, keeps the entries inside both shapes and is zero elsewhere |
| State.KetRecutoffRestores | mrmustard/lab/abstract/state.py:225-233 | enlarging the cutoffs and cutting back to the old ones gives the ket back |
| State.DmRecutoff | mrmustard/lab/abstract/state.py:258-264 | a dm gets the same padding and the same cutoffs on both halves |
| State.DmRecutoffEntries | mrmustard/lab/abstract/state.py:258-264 | a square dm re-cut to one cutoff per mode has the cutoffs on both halves as its shape, keeps the entries inside both shapes and is zero elsewhere |
| State.ItemModes | mrmustard/lab/abstract/state.py:368-371 | an int item stands for one mode and an iterable for its list of modes |
| State.State.constructor | mrmustard/lab/abstract/state.py:59-86 | a state stores its classification, the modes as supplied, the Fock arrays, and no cutoffs |
| State.State.Modes | mrmustard/lab/abstract/state.py:127-135 | the supplied or cached modes, else range(num_modes), one per mode; the result is cached and nothing else changes |
| State.State.Cutoffs | mrmustard/lab/abstract/state.py:147-159 | the autocutoffs for a state without Fock arrays; otherwise the first num_modes axes of the ket, or of the dm when there is no ket |
| State.State.Ket | mrmustard/lab/abstract/state.py:203-233 | a Gaussian state computes and keeps its ket at the resolved cutoffs; a Fock state without a ket gives None; a Fock ket is re-cut to the resolved cutoffs; an unresolvable request is an IndexError |
| State.State.Dm | mrmustard/lab/abstract/state.py:235-265 | a pure Gaussian state computes and keeps its ket and returns `ket_to_dm` of it; a pure Fock state keeps its ket and returns `ket_to_dm` of the ket re-cut to the cutoffs (or the re-cut's error), or its `_dm` when it has no ket; a mixed Gaussian state computes and keeps its dm with the cutoffs on both halves; a mixed Fock state re-cuts its dm, an AttributeError when it has none |
| State.State.GetItem | mrmustard/lab/abstract/state.py:367-379 | TypeError for an item that is neither an int nor iterable, ValueError for an item that does not name one mode per mode, otherwise the item becomes this state's modes and the state itself is returned |
| State.State.And | mrmustard/lab/abstract/state.py:354-365 | NotImplementedError exactly when a state is not Gaussian; otherwise a Gaussian state on this state's modes followed by the other's shifted by the number of this state's modes |
| State.NewState | mrmustard/lab/abstract/state.py:34-86 | the classification's ValueError, then an AssertionError exactly when supplied modes are not one per mode; otherwise a state with that classification and those modes |
| State.CountBelow | mrmustard/lab/abstract/state.py:310-314 | the `used` counter at mode m: how many of the modes below m are this state's, at most m |
| State.PrimalCutoffs | mrmustard/lab/abstract/state.py:309-316 | the loop succeeds exactly when every entry can be read, IndexError otherwise; entry m is this state's next unused cutoff for one of its modes and the other's own cutoff for any other mode |
| State.RemainingModes | mrmustard/lab/abstract/state.py:298 | the remaining modes are exactly the other's modes that are not this state's |
| State.PrimalModesPartition | mrmustard/lab/abstract/state.py:298-316 | the used cutoffs plus the remaining modes account for every mode of the other state |
| State.CountBelowDefaultModes | mrmustard/lab/abstract/state.py:310-314 | with the default modes 0..k-1 the counter at mode m is m |
| State.PrimalDefaultModes | mrmustard/lab/abstract/state.py:309-316 | with the default modes, the first k modes of the other state take this state's cutoffs in order |
| State.RShiftGuard | mrmustard/lab/abstract/state.py:420-426 | `>>` accepts exactly a transformation; a state is a TypeError, anything else has no `primal` |
| State.AddGuard | mrmustard/lab/abstract/state.py:435-438 | `+` accepts exactly a state; anything else is a TypeError |
| State.Eq | mrmustard/lab/abstract/state.py:399-418 | different numbers of modes or different purities are unequal; two Gaussian states are equal exactly when means and covariances are close; otherwise pure states (the purities being equal, `self`'s purity decides) compare their kets and all others their dms |
| State.EqReflexiveSymmetric | mrmustard/lab/abstract/state.py:399-418 | with a reflexive closeness every state equals itself, and with a symmetric one `==` is symmetric on operands read at the same cutoffs |
| State.GuardsComplementary | mrmustard/lab/abstract/state.py:420-438 | among states and transformations, `>>` and `+` accept complementary operands |

## Left out

- Floating-point and complex arithmetic: entries are exact reals (complex numbers only in `ArrayViews`). Rounding, NaN and overflow are not modelled.
- The math backend: `exp`, `inv`, `det`, `sqrt`, `atleast_kd`, `hermite_renormalized` (the Bargmann-to-Fock kernel) and `settings` values are function or value parameters.
- `thewalrus.is_pure_cov`, `reorder_matrix_from_qpqp_to_qqpp`, `Data.same` and the `is_pure` test of a state are parameters. They are external routines.
- The values computed by the amplitude recurrences: `use_diag_pivot`/`use_offDiag_pivot`, `calc_dA_dB`, `G`/`G0`. Only their indices are modelled, as the log of scratch-array accesses.
- The amplitude values of `fock_representation` (`hermite_renormalized`, the compact routine's `G`). Only the argument checks and shapes are modelled.
- Numerical content of the Gaussian plugin: `ABC`, the probability and covariance from `general_dyne`, `purity`, the `sqrtm` of `fidelity`, `number_means`/`number_variances`, symplectic matrices, coherent and displaced states, the GKP helpers, `CPTP` on covariances, `loss_XYd`/`thermal_XYd`, `is_mixed_cov`. Covariance values are real matrices, handled by index only.
- `GaussianPlugin`: `from_xpxp`/`to_xpxp` of the plugin tensor, its `__getitem__` and `T`, and the tensor entries of `__mul__`/`__add__`. Only their modes are modelled, through `CombinedModes`.
- `XPTensors`: `clone`, `clone_like`, `__getitem__` (line 407 uses an undefined `modes`), `expand_dims` (line 165), `__sub__`, `__truediv__`. Also left out are the entries of `@` products, of `_mode_aware_vecvec` and of the unmatched-mode accumulation of `+`. The model keeps the modes, the errors of the mode checks, of the block reshapes and of the batch axes of `math.block`, and the null semantics.
- `GaussianPlugin.PhaseTensor` follows the program and holds any tensor the check as written accepts. The intended check is `ShapeCheck`; every tensor it accepts is accepted by the check as written too.
- XPTensors.XPTensor.Matmul: the constructor does not tie the mode lists to the tensor's axes. A tensor whose mode list is longer than its axis makes the gathers of `_mode_aware_matmul` fail in the backend, and those failures are not modelled. The reshape of the contracted blocks is modelled from the axes the tensors really have. The method follows the code as written, so the products that raise through `XPMatrix.from_xxpp` raise in the model too. The intended product is the function `ModeAwareMatmul`, not a second method. For two vectors the model checks the broadcasting of line 313 and the indexing and broadcasting of line 315, but not the scalar they compute. The gathers of lines 305-308 reorder the assembled tensor by positions in the result's mode lists. They fail when the assembled tensor has fewer rows or columns than those lists, and that is not modelled. Besides mode lists longer than their axes, this happens when a like_1 matrix with no in-modes but some out-modes is multiplied by a like_1 matrix, since `final` is then `copied_rows` alone.
- XPTensors.XPTensor.Add: a sum involving a like_1 null, or of two tensors whose modes do not match, stops at the NameError/AttributeError the code raises. The sums evidently intended there are not modelled.
- Fock: `ket_to_dm`, `dm_to_ket`, `probs`, `contract_states`, `normalize`, `norm`, `is_mixed_dm` and the fidelity formulas after truncation. These are tensor contractions of numerical data.
- The tensordots of `CPTP` are not modelled. Only the axis blocks it contracts are.
- Fock.FockState: amplitudes are the reals 0 and 1, not complex numbers.
- Fock.Autocutoffs: the int32 cast of the cutoffs is not modelled; the truncation is on unbounded integers.
- MatVecData.TrueDiv: requires a nonzero divisor. Division by zero, which gives inf/NaN in the backend, is not modelled.
- CompactFockAmplitudes.FockRepresentationCompact: requires `M <= 1 || cutoff * M <= 61`. The binomial table is 60 x 60, and larger sizes index past it.
- CompactFockAmplitudes.FockRepresentationCompactNumba: requires the same bound as `FockRepresentationCompact`, and a cutoff of at least 2. For a smaller cutoff its only caller fails first, when numpy rejects the negative dimension of arr2.
- Array-shape preconditions on helpers (a matrix of the stated size, an index list within range) stand for numpy shape agreement. The broadcasting or IndexError that numpy would give otherwise is not modelled.
- The `Wires` class of lab_dev: its state is modelled as four ascending groups of modes, not as its own class.
- `CircuitComponent`: the modes and representation reordering in `__init__`, the default name, `*`, `/`, `__rmul__`, the contraction `__matmul__` performs, `to_fock_component`, `_to_fock_if_needed`, `auto_shape`, the Bargmann property and the representation of a view (reorder plus conj). Representations are an opaque type.
- `CircuitComponent._from_attributes`: the dispatch to subclasses is not modelled; the result is always a plain component.
- `__getattr__` forwarding of circuit-component views is modelled only for `fock_shape`.
- CircuitComponents.CircuitComponent.LightCopy: `_fock_shape` is a list that a light copy shares by reference. The model copies it as a value. The modelled code only replaces that list, never changes it in place, so the two agree there; a caller that changes the list returned by `fock_shape` in place, which would change every copy, is not modelled.
- CircuitComponents.CircuitComponent.Adjoint: requires the component not to be a dual view. The adjoint of a dual view is not modelled.
- CircuitComponents.CircuitComponent.Dual: requires the component not to be an adjoint view. The dual of an adjoint view is not modelled.
- TransformationsBase: `from_quadrature` and `from_bargmann` build numerical triples and are not modelled.
- TransformationsBase.InverseAsWritten: models only the checks and the TypeError. The inverse triple it would compute is not modelled.
- State: the numerics are not modelled. This covers `purity`/`is_pure` values, `number_stdev`, `number_cov`, the Fock amplitudes of Gaussian states, `join_covs`, the primal contraction and the `general_dyne` branch.
- State: `get_modes`, `fock_probabilities`, `__rmul__`, `__lshift__`, `__repr__` and the display methods are not modelled.
- State: the first `modes` property is redefined later in the class. Only the second, caching one is modelled.
- State.State.Modes: the AttributeError branch when neither `_modes` nor a numeric attribute is set is not modelled.
- State: negative cutoffs in `ket`/`dm` requests are not modelled (cutoffs are `nat`).
- ABCData.Plan: a shifted contraction index in [-d, 0), d the dimension of the tensor product, is an IndexError in the model. numpy wraps such an index at the reads of abc_data.py lines 115-138 and the loop goes on, with `noij` built from the negative index; that computation is not modelled. `ABCData.ABCObject.Matmul` inherits this.
- ABCData.Product, ABCData.Mul: only the element formula of the product is modelled, as a batch of k = len(X)·len(Y) triples. The code joins the k unbatched sums with `math.concat(..., axis=0)` (abc_data.py lines 82-84), which gives one (k·n, n) matrix and one vector of length k·n, not a batch. numpy cannot concatenate the 0-d products `c1 * c2` and raises ValueError. TensorFlow returns the single element unchanged when k = 1, giving an unbatched triple. Neither shape is modelled.
- ABCData.And: `__and__` with an operand that is not ABC data raises TypeError (abc_data.py lines 97-99). The model takes two ABC data only, so that error is not modelled.
- MatVecData.Add: the concatenation branch does not check that the matrices and vectors of the two operands have matching shapes; the concatenation error numpy would raise on a mismatch is not modelled.
- XPTensors.AddPayload: same-shape addition only. numpy's broadcasting of a batch of size 1 against a larger batch is modelled as a ValueError.
- State.PadThenSlice: wants one pad pair per axis, as the TensorFlow backend does. numpy's broadcasting of a single pad pair to every axis is not modelled, and is a ValueError here.
- TransformationsBase.FromSymplectic: a missing name is stored as the empty string, where the program keeps None. Names are strings in the model.
- Neighbours.AllNeighboursGen, Neighbours.LowerNeighboursGen, Neighbours.UpperNeighboursGen, Neighbours.BitstringNeighboursGen: the generators yield the pivot array itself, changed in place between yields. The model returns the snapshots of its contents at every yield, so a consumer that keeps the yielded object and reads it later (seeing the restored pivot) is not modelled.
- Display methods (`__repr__`, `_repr_html_`), plotting, I/O, random number generation, clocks and backend selection are not modelled.

## Findings

| source | as written | input that shows it | evidently intended | confidence | as-written member | corrected member |
|---|---|---|---|---|---|---|
| mrmustard/math/lattice/neighbours.py:90-97 | `upper_neighbors_fn` subtracts 1 from each coordinate, so it returns the lower neighbours | pivot [0] gives [[-1]] | add 1, as the name and doc comment say, giving [[1]] | not executed | Neighbours.UpperNeighboursFnAsWritten, Neighbours.UpperNeighboursFnAsWrittenDiffers | Neighbours.UpperNeighboursFn |
| mrmustard/utils/xptensor.py:132-146 | `to_xxpp` of a matrix reshapes the (2, 2, n, m) `modes_last` layout to (2n, 2m) without moving the second quadrature axis next to the first, so it is not the inverse of `from_xxpp` | the two-mode identity in xxpp order comes back with a 1 at (0, 3) | order the axes (2, n, 2, m) before the reshape, so that `to_xxpp` undoes `from_xxpp` | not executed | XPTensors.ToXxppAsWritten, XPTensors.ToXxppAsWrittenBreaksRoundTrip | XPTensors.ToXxpp, XPTensors.XxppRoundTrip |
| mrmustard/utils/xptensor.py:132-146 | `to_xxpp` of a vector reshapes the `modes_last` layout, which for vectors is the mode-first layout unchanged, so it gives xpxp order | the batch of one [(1, 2, 3, 4)] read with `from_xxpp` comes back as [(1, 3, 2, 4)] | all x entries, then all p entries | not executed | XPTensors.ToXxppVecAsWritten, XPTensors.ToXxppVecAsWrittenBreaksRoundTrip | XPTensors.ToXxppVec |
| mrmustard/utils/xptensor.py:247-251, 267, 441-443 | `_mode_aware_matmul` builds its direct product and its contracted matrix product with `self.from_xxpp(...)`, which on an XPMatrix calls `XPMatrix(tensor, None, None, modes)` and raises ValueError because neither like flag is set | X @ X for X = XPMatrix of shape (1, 1, 1, 2, 2), modes ([0], [0]), like_0 | the product of the matching modes, with modes ([0], [0]) | not executed | XPTensors.ModeAwareMatmulAsWritten, XPTensors.SquareOfMatrixRaises, XPTensors.ContractedMatrixProductRaises, XPTensors.XPTensor.Matmul | XPTensors.ModeAwareMatmul, XPTensors.ModeAwareMatmulAsWrittenDiffers |
| mrmustard/plugins/gaussianplugin.py:21 | the shape check joins its three tests with `and`, so a tensor fails only when all three are wrong | shape (2, 3, 5, 7) is accepted | reject a tensor when any test fails (`or`), so that only (2, N, 2, N, ...) passes, as the message says | not executed | GaussianPlugin.ShapeCheckAsWritten, GaussianPlugin.ShapeCheckAsWrittenAcceptsNonPhaseShape | GaussianPlugin.ShapeCheck |
| mrmustard/plugins/gaussianplugin.py:460-464 | `trace` gathers the indices i < N of the kept modes, which are only the x quadratures | the one-mode vacuum with nothing discarded gives a 1 x 1 covariance | keep indices i and i + N of every kept mode, giving the 2 x 2 covariance back | not executed | GaussianPlugin.TraceAsWritten, GaussianPlugin.TraceAsWrittenDropsMomenta | GaussianPlugin.Trace, GaussianPlugin.TraceNothing, GaussianPlugin.TraceIsPartitionBlock |
| mrmustard/physics/fock.py:508 | with no mode traced, `dm.shape[-0:]` is the whole shape, so `d` is the product of every dimension and the reshape fails | keeping every mode of a density matrix with two or more entries raises ValueError | a traced dimension of 1 when nothing is traced, so the density matrix is returned unchanged | not executed | Fock.TraceShapeAsWritten, Fock.TraceShapeAsWrittenKeepAll | Fock.TraceShape, Fock.TraceShapeKeeps |
| mrmustard/lab_dev/transformations/base.py:149-152, 229-230 | `>>` returns `Unitary._from_attributes(representation, wires)` or `Channel._from_attributes(...)`, which take three arguments, so it raises TypeError | a unitary on mode 0 followed by a unitary on mode 0 | return a Unitary after a Unitary, and a Channel when a Channel is involved, as the doc comments say | not executed | TransformationsBase.RShiftKindAsWritten, TransformationsBase.UnitaryAfterUnitary | TransformationsBase.RShiftKind, TransformationsBase.RShiftKindClosed |
