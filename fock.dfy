/** Index plumbing of the Fock-space functions (mrmustard/physics/fock.py): the one-hot Fock state,
  * the argument checks of `fock_representation`, the axis orders of the partial trace, of
  * `U_to_choi` and of `CPTP`, the truncation of the ket-ket fidelity and the clipping of
  * `autocutoffs`. Amplitudes themselves come from backend routines and are not modelled. */
module Fock {
  import opened Wrappers
  import opened Seqs
  import Dense

  // ---------------------------------------------------------------------------------------------
  // fock_state
  // ---------------------------------------------------------------------------------------------

  /** The cutoffs n_i + 1 of a Fock state with photon numbers n. */
  function Cutoffs(n: seq<nat>): (r: seq<nat>)
    ensures |r| == |n| && forall k | 0 <= k < |n| :: r[k] == n[k] + 1
  {
    seq(|n|, k requires 0 <= k < |n| => n[k] + 1)
  }

  /** `fock_state(n)`: the zeros of shape n + 1 are allocated first, and numpy refuses a negative
    * dimension, which an entry n_i <= -2 gives, with ValueError. An entry -1 gives an empty axis,
    * so the allocation succeeds and setting index n then raises IndexError. Otherwise the state is
    * the array of cutoffs n_i + 1 holding 1 at index n and 0 elsewhere. */
  function FockState(n: seq<int>): (r: Result<Dense.Tensor<real>>)
    ensures r.Ok? <==> forall k | 0 <= k < |n| :: n[k] >= 0
    ensures r == Err(ValueError) <==> exists k | 0 <= k < |n| :: n[k] <= -2
    ensures r == Err(IndexError) <==>
      (forall k | 0 <= k < |n| :: n[k] >= -1) && exists k | 0 <= k < |n| :: n[k] == -1
    ensures r.Err? ==> r.error == ValueError || r.error == IndexError
    ensures r.Ok? ==> r.value.Valid() && |r.value.shape| == |n| && forall k | 0 <= k < |n| :: r.value.shape[k] == n[k] + 1
    ensures r.Ok? ==> Dense.InShape(n, r.value.shape) && Dense.At(r.value, n) == 1.0
    ensures r.Ok? ==> forall idx | Dense.InShape(idx, r.value.shape) && idx != n :: Dense.At(r.value, idx) == 0.0
  {
    if exists k | 0 <= k < |n| :: n[k] <= -2 then Err(ValueError)
    else if exists k | 0 <= k < |n| :: n[k] == -1 then Err(IndexError)
    else
      var shape := Cutoffs(seq(|n|, k requires 0 <= k < |n| => n[k] as nat));
      Ok(Dense.Build(shape, idx => if idx == n then 1.0 else 0.0))
  }

  /** The Fock state has exactly one non-zero entry in its row-major data, at the position of n. */
  lemma FockStateOneHot(n: seq<int>)
    requires forall k | 0 <= k < |n| :: n[k] >= 0
    ensures var t := FockState(n).value;
      (Dense.InShape(n, t.shape)
      && forall p | 0 <= p < |t.data| :: t.data[p] == if p == Dense.Flatten(n, t.shape) then 1.0 else 0.0)
  {
    var t := FockState(n).value;
    forall p | 0 <= p < |t.data|
      ensures t.data[p] == if p == Dense.Flatten(n, t.shape) then 1.0 else 0.0
    {
      var idx := Dense.Unflatten(p, t.shape);
      Dense.FlattenUnflatten(p, t.shape);
      assert t.data[p] == Dense.At(t, idx);
      if idx == n {
        assert p == Dense.Flatten(n, t.shape);
      } else {
        Dense.FlattenInjective(idx, n, t.shape);
      }
    }
  }

  // ---------------------------------------------------------------------------------------------
  // fock_representation
  // ---------------------------------------------------------------------------------------------

  /** Which (A, B, C) triple `fock_representation` asks for: a state's (full when mixed) or a
    * transformation's (full when not unitary) with its Choi squeezing. */
  datatype Request = StateTriple(full: bool) | TransformationTriple(full: bool, choiR: real)

  /** The argument checks of `fock_representation(cov, means, shape, return_dm, return_unitary,
    * choi_r)`: giving both flags, neither flag, or the unitary flag without choi_r raises
    * ValueError; otherwise the mixed flag selects a state and the unitary flag a transformation. */
  function FockRepresentation(returnDm: Option<bool>, returnUnitary: Option<bool>, choiR: Option<real>): (r: Result<Request>)
    ensures r.Err? <==> (returnDm.Some? == returnUnitary.Some?) || (returnUnitary.Some? && choiR.None?)
    ensures r.Err? ==> r.error == ValueError
    ensures r.Ok? && returnDm.Some? ==> r.value == StateTriple(returnDm.value)
    ensures r.Ok? && returnUnitary.Some? ==> r.value == TransformationTriple(!returnUnitary.value, choiR.value)
  {
    if returnDm.Some? && returnUnitary.Some? then Err(ValueError)
    else if returnDm.None? && returnUnitary.None? then Err(ValueError)
    else if returnUnitary.Some? && choiR.None? then Err(ValueError)
    else if returnDm.Some? then Ok(StateTriple(returnDm.value))
    else Ok(TransformationTriple(!returnUnitary.value, choiR.value))
  }

  /** The three checks are exhaustive: exactly one flag, and choi_r with the unitary flag, is what
    * it takes to get a request. */
  lemma FockRepresentationAccepts(returnDm: Option<bool>, returnUnitary: Option<bool>, choiR: Option<real>)
    ensures FockRepresentation(returnDm, returnUnitary, choiR).Ok? <==>
      (returnDm.Some? && returnUnitary.None?) || (returnDm.None? && returnUnitary.Some? && choiR.Some?)
  {
  }

  // ---------------------------------------------------------------------------------------------
  // trace
  // ---------------------------------------------------------------------------------------------

  /** `[i for pair in [(k, k + N) for k in s] for i in pair]`. */
  function Pairs(s: seq<int>, n: int): (r: seq<int>)
    ensures |r| == 2 * |s|
    ensures forall k | 0 <= k < |s| :: r[2 * k] == s[k] && r[2 * k + 1] == s[k] + n
  {
    if |s| == 0 then [] else
      var rest := Pairs(s[1..], n);
      assert forall k | 1 <= k < |s| ::
        (([s[0], s[0] + n] + rest)[2 * k] == rest[2 * (k - 1)]
        && ([s[0], s[0] + n] + rest)[2 * k + 1] == rest[2 * (k - 1) + 1]);
      [s[0], s[0] + n] + rest
  }

  /** `x[::2] + x[1::2]`: the entries at even positions, then those at odd positions. */
  function Destagger(x: seq<int>): (r: seq<int>)
    ensures |r| == |x|
  {
    seq((|x| + 1) / 2, k requires 0 <= k < (|x| + 1) / 2 => x[2 * k]) + seq(|x| / 2, k requires 0 <= k < |x| / 2 => x[2 * k + 1])
  }

  /** Destaggering the pairs (k, k + N) lists the modes and then the modes shifted by N. */
  lemma DestaggerPairs(s: seq<int>, n: nat)
    ensures Destagger(Pairs(s, n)) == Doubled(s, n)
  {
    var p := Pairs(s, n);
    assert (2 * |s| + 1) / 2 == |s| && (2 * |s|) / 2 == |s|;
    var evens := seq(|s|, k requires 0 <= k < |s| => p[2 * k]);
    var odds := seq(|s|, k requires 0 <= k < |s| => p[2 * k + 1]);
    assert Destagger(p) == evens + odds;
    var D := Doubled(s, n);
    assert evens == D[..|s|];
    assert odds == D[|s|..];
    assert D == D[..|s|] + D[|s|..];
  }

  /** The axis order `keep_idx + trace_idx` of `trace(dm, keep)` on a rank-2N density matrix: the
    * kept kets, the kept bras (k + N), the traced kets, the traced bras. */
  function TraceAxes(rank: nat, keep: seq<int>): (r: seq<int>)
    ensures var n := rank / 2; r == Doubled(keep, n) + Doubled(Complement(n, keep), n)
  {
    var n := rank / 2;
    var traced := Complement(n, keep);
    DestaggerPairs(keep, n);
    DestaggerPairs(traced, n);
    Destagger(Pairs(keep, n)) + Destagger(Pairs(traced, n))
  }

  /** For distinct kept modes among the N modes of an even-rank density matrix, the axis order is a
    * permutation of the 2N axes. */
  lemma TraceAxesPermutation(rank: nat, keep: seq<int>)
    requires rank % 2 == 0 && AllBelow(keep, rank / 2) && Distinct(keep)
    ensures IsPermutation(TraceAxes(rank, keep), rank)
  {
    DoubledPartition(rank / 2, keep);
  }

  /** `shape[axes]` for axes inside the shape. */
  function Pick(shape: seq<nat>, axes: seq<int>): (r: seq<nat>)
    requires AllBelow(axes, |shape|)
    ensures |r| == |axes| && forall k | 0 <= k < |axes| :: r[k] == shape[axes[k]]
  {
    seq(|axes|, k requires 0 <= k < |axes| => shape[axes[k]])
  }

  /** The reshape and trace at the end of `trace`, on the transposed shape t: kept kets and bras
    * first, then `traced` ket and `traced` bra cutoffs. The reshape target is the kept axes and
    * (d, d); a size mismatch raises ValueError, and the trace of the last two axes leaves the kept
    * axes. As written, d is the product of `shape[-len(trace):]`, which for an empty trace is the
    * whole shape (Python's `-0` is 0); as intended it is the product of the traced bras' cutoffs,
    * 1 when nothing is traced. */
  function TraceReshape(t: seq<nat>, kept: nat, traced: nat, asWritten: bool): (r: Result<seq<nat>>)
    requires |t| == 2 * kept + 2 * traced
    ensures r.Ok? ==> r.value == t[..2 * kept]
    ensures r.Err? ==> r.error == ValueError
  {
    var d := if asWritten && traced == 0 then Dense.Prod(t) else Dense.Prod(t[|t| - traced..]);
    if Dense.Prod(t[..2 * kept] + [d, d]) != Dense.Prod(t) then Err(ValueError) else Ok(t[..2 * kept])
  }

  /** The shape of `trace(dm, keep)` as written: an axis order that is not a permutation raises
    * ValueError, then the reshape as written. */
  function TraceShapeAsWritten(shape: seq<nat>, keep: seq<int>): (r: Result<seq<nat>>)
    ensures r.Ok? ==> IsPermutation(TraceAxes(|shape|, keep), |shape|) && |r.value| == 2 * |keep|
    ensures r.Err? ==> r.error == ValueError
  {
    var axes := TraceAxes(|shape|, keep);
    if !IsPermutation(axes, |shape|) then Err(ValueError)
    else
      PermutationLength(axes, |shape|);
      TraceReshape(Pick(shape, axes), |keep|, |Complement(|shape| / 2, keep)|, true)
  }

  /** The shape of `trace(dm, keep)` with the intended reshape. */
  function TraceShape(shape: seq<nat>, keep: seq<int>): (r: Result<seq<nat>>)
    ensures r.Ok? ==> IsPermutation(TraceAxes(|shape|, keep), |shape|) && |r.value| == 2 * |keep|
    ensures r.Err? ==> r.error == ValueError
  {
    var axes := TraceAxes(|shape|, keep);
    if !IsPermutation(axes, |shape|) then Err(ValueError)
    else
      PermutationLength(axes, |shape|);
      TraceReshape(Pick(shape, axes), |keep|, |Complement(|shape| / 2, keep)|, false)
  }

  lemma {:induction false} ProdConcat(a: seq<nat>, b: seq<nat>)
    ensures Dense.Prod(a + b) == Dense.Prod(a) * Dense.Prod(b)
  {
    if |a| == 0 {
      assert a + b == b;
    } else {
      assert (a + b)[1..] == a[1..] + b;
      ProdConcat(a[1..], b);
      assert Dense.Prod(a + b) == a[0] * (Dense.Prod(a[1..]) * Dense.Prod(b));
      assert a[0] * (Dense.Prod(a[1..]) * Dense.Prod(b)) == (a[0] * Dense.Prod(a[1..])) * Dense.Prod(b);
    }
  }

  /** A density matrix's shape: N ket cutoffs followed by the same N bra cutoffs. */
  predicate IsDmShape(shape: seq<nat>)
  {
    |shape| % 2 == 0 && forall k | 0 <= k < |shape| / 2 :: shape[k] == shape[|shape| / 2 + k]
  }

  /** The intended reshape succeeds whenever the traced kets' and bras' cutoffs agree. */
  lemma TraceReshapeBalanced(t: seq<nat>, kept: nat, traced: nat)
    requires |t| == 2 * kept + 2 * traced
    requires t[2 * kept..2 * kept + traced] == t[2 * kept + traced..]
    ensures TraceReshape(t, kept, traced, false) == Ok(t[..2 * kept])
  {
    var kk := 2 * kept;
    var kets := t[kk..kk + traced];
    var bras := t[kk + traced..];
    assert t == t[..kk] + (kets + bras);
    assert t[|t| - traced..] == bras;
    var d := Dense.Prod(bras);
    ProdConcat(t[..kk], kets + bras);
    ProdConcat(kets, bras);
    ProdConcat(t[..kk], [d, d]);
    Dense.Prod2(d, d);
  }

  lemma PickConcat(shape: seq<nat>, x: seq<int>, y: seq<int>)
    requires AllBelow(x, |shape|) && AllBelow(y, |shape|)
    ensures AllBelow(x + y, |shape|) && Pick(shape, x + y) == Pick(shape, x) + Pick(shape, y)
  {
  }

  /** On a density-matrix shape a mode's bra axis k + N has the cutoff of its ket axis k. */
  lemma PickShifted(shape: seq<nat>, c: seq<int>)
    requires IsDmShape(shape) && AllBelow(c, |shape| / 2)
    ensures AllBelow(Shift(c, |shape| / 2), |shape|)
    ensures Pick(shape, Shift(c, |shape| / 2)) == Pick(shape, c)
  {
  }

  /** The transposed shape of a density matrix: the kept modes' cutoffs twice, then the traced
    * modes' ket cutoffs and the same bra cutoffs. */
  lemma TraceTransposed(shape: seq<nat>, keep: seq<int>)
    requires IsDmShape(shape) && AllBelow(keep, |shape| / 2) && Distinct(keep)
    ensures IsPermutation(TraceAxes(|shape|, keep), |shape|)
    ensures var n := |shape| / 2;
      (Pick(shape, TraceAxes(|shape|, keep))
       == Pick(shape, Doubled(keep, n)) + Pick(shape, Complement(n, keep)) + Pick(shape, Complement(n, keep)))
  {
    var n := |shape| / 2;
    TraceAxesPermutation(|shape|, keep);
    var c := Complement(n, keep);
    PickShifted(shape, keep);
    PickShifted(shape, c);
    PickConcat(shape, keep, Shift(keep, n));
    PickConcat(shape, c, Shift(c, n));
    PickConcat(shape, Doubled(keep, n), Doubled(c, n));
  }

  /** On a density-matrix shape with distinct kept modes the trace succeeds and leaves the kept
    * kets' cutoffs followed by the kept bras' cutoffs: 2 len(keep) axes. */
  lemma TraceShapeKeeps(shape: seq<nat>, keep: seq<int>)
    requires IsDmShape(shape) && AllBelow(keep, |shape| / 2) && Distinct(keep)
    ensures TraceShape(shape, keep) == Ok(Pick(shape, Doubled(keep, |shape| / 2)))
  {
    TraceTransposed(shape, keep);
    var n := |shape| / 2;
    var axes := TraceAxes(|shape|, keep);
    PermutationLength(axes, |shape|);
    var t := Pick(shape, axes);
    var kept := Pick(shape, Doubled(keep, n));
    var traced := Pick(shape, Complement(n, keep));
    var kk := 2 * |keep|;
    assert t[..kk] == kept && t[kk..kk + |traced|] == traced && t[kk + |traced|..] == traced;
    TraceReshapeBalanced(t, |keep|, |traced|);
  }

  /** p * p * p == p only for p = 0 and p = 1. */
  lemma CubeFixed(p: nat)
    ensures p * p * p == p <==> p <= 1
  {
    if p >= 2 {
      Dense.MulLe(2, p, p);
      Dense.MulLe(2, p * p, p);
    }
  }

  /** When every mode is kept nothing is traced: the reshape as written asks for the kept axes and
    * two more axes of the whole size P, which fits the P entries only for P <= 1, so any density
    * matrix with more than one entry (the 2 x 2 density matrix of one mode kept, say) raises
    * ValueError; the intended reshape returns the shape unchanged in its transposed order. */
  lemma TraceShapeAsWrittenKeepAll(shape: seq<nat>, keep: seq<int>)
    requires IsDmShape(shape) && AllBelow(keep, |shape| / 2) && Distinct(keep) && |keep| == |shape| / 2
    ensures var kept := Pick(shape, Doubled(keep, |shape| / 2));
      (TraceShapeAsWritten(shape, keep).Err? <==> Dense.Prod(kept) >= 2)
    ensures TraceShape(shape, keep) == Ok(Pick(shape, Doubled(keep, |shape| / 2)))
  {
    var n := |shape| / 2;
    TraceShapeKeeps(shape, keep);
    TraceTransposed(shape, keep);
    ComplementPartition(n, keep);
    var axes := TraceAxes(|shape|, keep);
    PermutationLength(axes, |shape|);
    var t := Pick(shape, axes);
    var kept := Pick(shape, Doubled(keep, n));
    assert Complement(n, keep) == [];
    assert t == kept;
    var p := Dense.Prod(t);
    assert t[..2 * |keep|] == t;
    ProdConcat(t, [p, p]);
    Dense.Prod2(p, p);
    assert Dense.Prod(t + [p, p]) == p * (p * p);
    CubeFixed(p);
    assert TraceShapeAsWritten(shape, keep) == TraceReshape(t, |keep|, 0, true);
  }

  /** When some mode is traced out the two readings agree. */
  lemma TraceShapeAsWrittenAgrees(shape: seq<nat>, keep: seq<int>)
    requires |Complement(|shape| / 2, keep)| > 0
    ensures TraceShapeAsWritten(shape, keep) == TraceShape(shape, keep)
  {
  }

  // ---------------------------------------------------------------------------------------------
  // U_to_choi and CPTP
  // ---------------------------------------------------------------------------------------------

  /** Where axis j of the Choi tensor comes from: the second and third blocks of N axes of the outer
    * product trade places. */
  function ChoiAxis(j: int, n: nat): (r: int)
    ensures 0 <= j < 4 * n ==> 0 <= r < 4 * n
  {
    if n <= j < 2 * n then j + n else if 2 * n <= j < 3 * n then j - n else j
  }

  /** The axis order of `U_to_choi` for a unitary on N modes: the outer product's axis blocks
    * [0, N), [2N, 3N), [N, 2N), [3N, 4N). */
  function ChoiAxes(n: nat): (r: seq<int>)
    ensures |r| == 4 * n && forall j | 0 <= j < 4 * n :: r[j] == ChoiAxis(j, n)
  {
    var r := Range(0, n) + Range(2 * n, 3 * n) + Range(n, 2 * n) + Range(3 * n, 4 * n);
    assert forall j | 0 <= j < 4 * n :: r[j] == ChoiAxis(j, n) by {
      forall j | 0 <= j < 4 * n ensures r[j] == ChoiAxis(j, n) {
        if j < n { assert r[j] == Range(0, n)[j]; }
        else if j < 2 * n { assert r[j] == Range(2 * n, 3 * n)[j - n]; }
        else if j < 3 * n { assert r[j] == Range(n, 2 * n)[j - 2 * n]; }
        else { assert r[j] == Range(3 * n, 4 * n)[j - 3 * n]; }
      }
    }
    r
  }

  /** The Choi axis order is a permutation of the 4N axes of the outer product, and its own
    * inverse. */
  lemma ChoiAxesPermutation(n: nat)
    ensures IsPermutation(ChoiAxes(n), 4 * n)
    ensures forall j | 0 <= j < 4 * n :: ChoiAxes(n)[ChoiAxes(n)[j]] == j
  {
    var r := ChoiAxes(n);
    assert forall j | 0 <= j < 4 * n :: ChoiAxis(ChoiAxis(j, n), n) == j;
    forall x | 0 <= x < 4 * n
      ensures x in r
    {
      assert r[ChoiAxis(x, n)] == x;
    }
  }

  /** `U_to_choi`: with U of shape out ++ in (N cutoffs each), the outer product with its conjugate
    * has shape out ++ in ++ out ++ in, and the Choi tensor has shape out ++ out ++ in ++ in. */
  lemma ChoiShape(outs: seq<nat>, ins: seq<nat>)
    requires |outs| == |ins|
    ensures var n := |outs|;
      AllBelow(ChoiAxes(n), 4 * n) && Pick(outs + ins + outs + ins, ChoiAxes(n)) == outs + outs + ins + ins
  {
    var n := |outs|;
    ChoiAxesPermutation(n);
    var u := outs + ins + outs + ins;
    var p := Pick(u, ChoiAxes(n));
    var w := outs + outs + ins + ins;
    forall j | 0 <= j < 4 * n
      ensures p[j] == w[j]
    {
      if j < n { assert u[j] == outs[j] && w[j] == outs[j]; }
      else if j < 2 * n { assert u[j + n] == outs[j - n] && w[j] == outs[j - n]; }
      else if j < 3 * n { assert u[j - n] == ins[j - 2 * n] && w[j] == ins[j - 2 * n]; }
      else { assert u[j] == ins[j - 3 * n] && w[j] == ins[j - 3 * n]; }
    }
  }

  /** The number of modes `CPTP` reads off the state: half the rank of a density matrix, the rank of
    * a ket. */
  function CptpModes(rank: nat, stateIsDm: bool): (r: nat)
    ensures stateIsDm ==> 2 * r <= rank <= 2 * r + 1
    ensures !stateIsDm ==> r == rank
  {
    if stateIsDm then rank / 2 else rank
  }

  /** The index blocks N0, N1, N2, N3 of `CPTP`: block b is range(b m, (b + 1) m). */
  function CptpBlocks(rank: nat, stateIsDm: bool): (r: seq<seq<int>>)
    ensures var m := CptpModes(rank, stateIsDm);
      |r| == 4 && forall b | 0 <= b < 4 :: |r[b]| == m && forall k | 0 <= k < m :: r[b][k] == b * m + k
  {
    var m := CptpModes(rank, stateIsDm);
    [Range(0, m), Range(m, 2 * m), Range(2 * m, 3 * m), Range(3 * m, 4 * m)]
  }

  /** The blocks are consecutive and disjoint: laid end to end they are range(4 m). */
  lemma CptpBlocksTile(rank: nat, stateIsDm: bool)
    ensures var r := CptpBlocks(rank, stateIsDm); r[0] + r[1] + r[2] + r[3] == Range(0, 4 * CptpModes(rank, stateIsDm))
  {
    var r := CptpBlocks(rank, stateIsDm);
    var m := CptpModes(rank, stateIsDm);
    var s := r[0] + r[1] + r[2] + r[3];
    forall j | 0 <= j < 4 * m
      ensures s[j] == j
    {
      if j < m { assert s[j] == r[0][j]; }
      else if j < 2 * m { assert s[j] == r[1][j - m]; }
      else if j < 3 * m { assert s[j] == r[2][j - 2 * m]; }
      else { assert s[j] == r[3][j - 3 * m]; }
    }
  }

  // ---------------------------------------------------------------------------------------------
  // fidelity and autocutoffs
  // ---------------------------------------------------------------------------------------------

  /** `[min(a, b) for a, b in zip(shape_a, shape_b)]` for two shapes of one rank. */
  function MinShape(a: seq<nat>, b: seq<nat>): (r: seq<nat>)
    requires |a| == |b|
    ensures |r| == |a| && forall k | 0 <= k < |a| :: r[k] <= a[k] && r[k] <= b[k] && (r[k] == a[k] || r[k] == b[k])
  {
    seq(|a|, k requires 0 <= k < |a| => if a[k] <= b[k] then a[k] else b[k])
  }

  /** The ket-ket branch of `fidelity`: both kets cut to the elementwise minimum shape, so their
    * entries line up index by index with the originals. */
  function KetPairTruncation(a: Dense.Tensor<real>, b: Dense.Tensor<real>): (r: (Dense.Tensor<real>, Dense.Tensor<real>))
    requires a.Valid() && b.Valid() && |a.shape| == |b.shape|
    ensures r.0.Valid() && r.1.Valid() && r.0.shape == r.1.shape == MinShape(a.shape, b.shape)
    ensures forall idx | Dense.InShape(idx, r.0.shape) ::
      (Dense.InShape(idx, a.shape) && Dense.InShape(idx, b.shape)
      && Dense.At(r.0, idx) == Dense.At(a, idx) && Dense.At(r.1, idx) == Dense.At(b, idx))
  {
    var m := MinShape(a.shape, b.shape);
    (Dense.Slice(a, m), Dense.Slice(b, m))
  }

  /** Truncating kets that already share a shape changes neither. */
  lemma KetPairTruncationSameShape(a: Dense.Tensor<real>, b: Dense.Tensor<real>)
    requires a.Valid() && b.Valid() && a.shape == b.shape
    ensures KetPairTruncation(a, b) == (a, b)
  {
    var r := KetPairTruncation(a, b);
    assert MinShape(a.shape, b.shape) == a.shape;
    Dense.Extensional(r.0, a);
    Dense.Extensional(r.1, b);
  }

  /** The autocutoff settings: `AUTOCUTOFF_MIN_CUTOFF`, `AUTOCUTOFF_MAX_CUTOFF` and
    * `AUTOCUTOFF_STDEV_FACTOR`. */
  datatype Settings = Settings(minCutoff: int, maxCutoff: int, stdevFactor: real)

  /** The int32 cast of the backend: truncation toward zero. */
  function Trunc(x: real): (r: int)
    ensures x >= 0.0 ==> r as real <= x < r as real + 1.0
    ensures x < 0.0 ==> r as real - 1.0 < x <= r as real
  {
    if x >= 0.0 then x.Floor else -((-x).Floor)
  }

  /** `math.clip(x, lo, hi)`, numpy's `minimum(maximum(x, lo), hi)`: with inconsistent bounds
    * every value becomes hi. */
  function Clip(x: int, lo: int, hi: int): (r: int)
    ensures lo <= hi ==> lo <= r <= hi
    ensures lo <= x <= hi ==> r == x
    ensures lo > hi ==> r == hi
  {
    var m := if x < lo then lo else x;
    if m > hi then hi else m
  }

  /** One mode's autocutoff: the settings' minimum cutoff plus the truncated mean + stdev * factor,
    * clipped into [lo, hi]. */
  function ModeCutoff(mean: real, stdev: real, lo: int, hi: int, s: Settings): (r: int)
    ensures lo <= hi ==> lo <= r <= hi
    ensures var raw := s.minCutoff + Trunc(mean + stdev * s.stdevFactor); lo <= raw <= hi ==> r == raw
  {
    Clip(s.minCutoff + Trunc(mean + stdev * s.stdevFactor), lo, hi)
  }

  /** `autocutoffs(number_stdev, number_means, max_cutoff, min_cutoff)`: missing bounds come from
    * the settings, and every mode gets its clipped cutoff. */
  function Autocutoffs(stdev: seq<real>, means: seq<real>, maxCutoff: Option<int>, minCutoff: Option<int>, s: Settings): (r: seq<int>)
    requires |stdev| == |means|
    ensures |r| == |means|
    ensures forall k | 0 <= k < |means| ::
      r[k] == ModeCutoff(means[k], stdev[k], minCutoff.GetOr(s.minCutoff), maxCutoff.GetOr(s.maxCutoff), s)
  {
    seq(|means|, k requires 0 <= k < |means| => ModeCutoff(means[k], stdev[k], minCutoff.GetOr(s.minCutoff), maxCutoff.GetOr(s.maxCutoff), s))
  }

  /** With consistent bounds every cutoff lies between them; without explicit bounds, between the
    * settings' minimum and maximum. */
  lemma AutocutoffsBounded(stdev: seq<real>, means: seq<real>, maxCutoff: Option<int>, minCutoff: Option<int>, s: Settings)
    requires |stdev| == |means|
    requires minCutoff.GetOr(s.minCutoff) <= maxCutoff.GetOr(s.maxCutoff)
    ensures forall k | 0 <= k < |means| ::
      minCutoff.GetOr(s.minCutoff) <= Autocutoffs(stdev, means, maxCutoff, minCutoff, s)[k] <= maxCutoff.GetOr(s.maxCutoff)
    ensures maxCutoff.None? && minCutoff.None? ==>
      forall k | 0 <= k < |means| :: s.minCutoff <= Autocutoffs(stdev, means, maxCutoff, minCutoff, s)[k] <= s.maxCutoff
  {
  }
}
