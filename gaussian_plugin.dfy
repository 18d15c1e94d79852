/** The Gaussian plugin (mrmustard/plugins/gaussianplugin.py): its phase-space `XPTensor`, kept as a
  * (2, N, 2, N) tensor whose first and third axes pick the x or p quadrature and whose second and
  * fourth axes pick the mode, and the index bookkeeping of the Gaussian state operations (vacuum
  * and thermal states, partitions into subsystems, partial trace, the mode split of a general-dyne
  * measurement). */
module GaussianPlugin {
  import opened Wrappers
  import opened Seqs
  import opened LinAlg
  import Dense

  // ---------------------------------------------------------------------------------------------
  // The phase-space tensor
  // ---------------------------------------------------------------------------------------------

  /** The shape check of `XPTensor.__init__` as written: it joins the three conditions with `and`,
    * so a tensor is refused only when all three of them fail. */
  function ShapeCheckAsWritten(shape: seq<nat>): (r: Outcome)
    ensures r == Pass <==> |shape| >= 4 && (shape[0] == 2 || shape[2] == 2 || shape[3] == shape[1])
    ensures r.Fail? ==> r.error == ValueError
  {
    if |shape| < 4 then Fail(ValueError)
    else if shape[0] != 2 && shape[2] != 2 && shape[3] != shape[1] then Fail(ValueError)
    else Pass
  }

  /** The shape check as its message intends: the tensor must have shape (2, N, 2, N, ...). */
  function ShapeCheck(shape: seq<nat>): (r: Outcome)
    ensures r == Pass <==> |shape| >= 4 && shape[0] == 2 && shape[2] == 2 && shape[3] == shape[1]
    ensures r.Fail? ==> r.error == ValueError
  {
    if |shape| < 4 then Fail(ValueError)
    else if shape[0] != 2 || shape[2] != 2 || shape[3] != shape[1] then Fail(ValueError)
    else Pass
  }

  /** The check as written lets a tensor of shape (2, 3, 5, 7) through; the intended check refuses
    * it, and accepts every (2, N, 2, N). Every shape the intended check accepts passes the check
    * as written too. */
  lemma ShapeCheckAsWrittenAcceptsNonPhaseShape(n: nat)
    ensures ShapeCheckAsWritten([2, 3, 5, 7]) == Pass
    ensures ShapeCheck([2, 3, 5, 7]) == Fail(ValueError)
    ensures ShapeCheck([2, n, 2, n]) == Pass && ShapeCheckAsWritten([2, n, 2, n]) == Pass
    ensures forall shape :: ShapeCheck(shape) == Pass ==> ShapeCheckAsWritten(shape) == Pass
  {
  }

  /** A (2, n, 2, n) tensor: the phase-space layout of n modes. */
  predicate IsPhase(t: Dense.Tensor<real>, n: nat)
  {
    t.Valid() && t.shape == [2, n, 2, n]
  }

  /** The n x n identity as a tensor of shape (n, n). */
  function Eye(n: nat): (r: Dense.Tensor<real>)
    ensures r.Valid() && r.shape == [n, n]
    ensures forall k, l | 0 <= k < n && 0 <= l < n :: Dense.InShape([k, l], [n, n]) && Dense.At(r, [k, l]) == if k == l then 1.0 else 0.0
  {
    var r := Dense.Build([n, n], idx => if |idx| == 2 && idx[0] == idx[1] then 1.0 else 0.0);
    assert forall k, l | 0 <= k < n && 0 <= l < n :: Dense.InShape([k, l], [n, n]) by {
      forall k, l | 0 <= k < n && 0 <= l < n ensures Dense.InShape([k, l], [n, n]) {
        Dense.Flatten2(k, l, n, n);
      }
    }
    r
  }

  /** The all-zero tensor of a shape. */
  function Zeros(shape: seq<nat>): (r: Dense.Tensor<real>)
    ensures r.Valid() && r.shape == shape
    ensures forall idx | Dense.InShape(idx, shape) :: Dense.At(r, idx) == 0.0
  {
    Dense.Build(shape, _ => 0.0)
  }

  /** Row s * n + i of an x-x-p-p matrix is quadrature s of mode i. */
  lemma XxppPosition(s: int, i: int, n: nat)
    requires 0 <= s < 2 && 0 <= i < n
    ensures 0 <= s * n + i < 2 * n
  {
  }

  /** Reshaping a (2n, 2n) matrix to (2, n, 2, n) puts entry (s n + i, t n + j) at (s, i, t, j). */
  lemma ReshapeEntry(X: Dense.Tensor<real>, n: nat, s: int, i: int, t: int, j: int)
    requires X.Valid() && X.shape == [2 * n, 2 * n]
    requires 0 <= s < 2 && 0 <= i < n && 0 <= t < 2 && 0 <= j < n
    ensures Dense.Prod([2, n, 2, n]) == Dense.Prod(X.shape)
    ensures Dense.InShape([s, i, t, j], [2, n, 2, n]) && Dense.InShape([s * n + i, t * n + j], X.shape)
    ensures Dense.At(Dense.Reshape(X, [2, n, 2, n]), [s, i, t, j]) == Dense.At(X, [s * n + i, t * n + j])
  {
    ReshapeSize(n);
    XxppPosition(s, i, n);
    XxppPosition(t, j, n);
    Dense.Flatten4(s, i, t, j, 2, n, 2, n);
    Dense.Flatten2(s * n + i, t * n + j, 2 * n, 2 * n);
    ReshapeArith(s * n + i, t, j, n);
  }

  lemma ReshapeArith(a: int, t: int, j: int, n: int)
    ensures (a * 2 + t) * n + j == a * (2 * n) + (t * n + j)
  {
    assert (a * 2 + t) * n == (a * 2) * n + t * n;
    assert (a * 2) * n == a * (2 * n);
  }

  lemma ReshapeSize(n: nat)
    ensures Dense.Prod([2, n, 2, n]) == Dense.Prod([2 * n, 2 * n]) == 4 * n * n
  {
    Dense.Prod4(2, n, 2, n);
    Dense.Prod2(2 * n, 2 * n);
  }

  /** The tensor of an `XPTensor` built without one (and of `empty`): the (2, N, 2, N) zeros when
    * zero-based, otherwise the 2N x 2N identity reshaped, which is 1 exactly where both quadrature
    * and mode agree. */
  function Default(n: nat, zeroBased: bool): (r: Dense.Tensor<real>)
    ensures IsPhase(r, n)
    ensures forall s, i, t, j | 0 <= s < 2 && 0 <= i < n && 0 <= t < 2 && 0 <= j < n ::
      (Dense.InShape([s, i, t, j], r.shape)
      && Dense.At(r, [s, i, t, j]) == if !zeroBased && s == t && i == j then 1.0 else 0.0)
  {
    if zeroBased then
      var r := Zeros([2, n, 2, n]);
      assert forall s, i, t, j | 0 <= s < 2 && 0 <= i < n && 0 <= t < 2 && 0 <= j < n :: Dense.InShape([s, i, t, j], r.shape) by {
        forall s, i, t, j | 0 <= s < 2 && 0 <= i < n && 0 <= t < 2 && 0 <= j < n ensures Dense.InShape([s, i, t, j], r.shape) {
          Dense.Flatten4(s, i, t, j, 2, n, 2, n);
        }
      }
      r
    else
      ReshapeSize(n);
      var r := Dense.Reshape(Eye(2 * n), [2, n, 2, n]);
      assert forall s, i, t, j | 0 <= s < 2 && 0 <= i < n && 0 <= t < 2 && 0 <= j < n ::
        (Dense.InShape([s, i, t, j], r.shape) && Dense.At(r, [s, i, t, j]) == if s == t && i == j then 1.0 else 0.0) by {
        forall s, i, t, j | 0 <= s < 2 && 0 <= i < n && 0 <= t < 2 && 0 <= j < n
          ensures Dense.InShape([s, i, t, j], r.shape) && Dense.At(r, [s, i, t, j]) == if s == t && i == j then 1.0 else 0.0
        {
          EyeEntry(n, s, i, t, j);
        }
      }
      r
  }

  /** Entry (s, i, t, j) of the reshaped 2n x 2n identity is 1 exactly when s == t and i == j. */
  lemma EyeEntry(n: nat, s: int, i: int, t: int, j: int)
    requires 0 <= s < 2 && 0 <= i < n && 0 <= t < 2 && 0 <= j < n
    ensures Dense.Prod([2, n, 2, n]) == Dense.Prod([2 * n, 2 * n])
    ensures Dense.InShape([s, i, t, j], [2, n, 2, n])
    ensures Dense.At(Dense.Reshape(Eye(2 * n), [2, n, 2, n]), [s, i, t, j]) == if s == t && i == j then 1.0 else 0.0
  {
    ReshapeEntry(Eye(2 * n), n, s, i, t, j);
    var k, l := s * n + i, t * n + j;
    QuadratureRow(s, i, n);
    QuadratureRow(t, j, n);
    assert Dense.At(Eye(2 * n), [k, l]) == if k == l then 1.0 else 0.0;
    assert k == l <==> s == t && i == j;
  }

  lemma QuadratureRow(s: int, i: int, n: nat)
    requires 0 <= s < 2 && 0 <= i < n
    ensures s * n + i == (if s == 0 then i else n + i)
  {
    if s == 0 { assert s * n == 0; } else { assert s * n == n; }
  }

  /** `from_xxpp`: the x-x-p-p matrix reshaped to (2, N, 2, N) with N the number of modes; a matrix
    * of another size cannot be reshaped (ValueError). */
  function FromXxpp(X: Dense.Tensor<real>, n: nat): (r: Result<Dense.Tensor<real>>)
    requires X.Valid()
    ensures r.Ok? <==> Dense.Prod(X.shape) == 4 * n * n
    ensures r.Err? ==> r.error == ValueError
    ensures r.Ok? ==> IsPhase(r.value, n) && r.value.data == X.data
  {
    ReshapeSize(n);
    if Dense.Prod(X.shape) != 4 * n * n then Err(ValueError) else Ok(Dense.Reshape(X, [2, n, 2, n]))
  }

  /** `to_xxpp`: the tensor reshaped to a 2N x 2N matrix with N the number of modes. */
  function ToXxpp(t: Dense.Tensor<real>, n: nat): (r: Result<Dense.Tensor<real>>)
    requires t.Valid()
    ensures r.Ok? <==> Dense.Prod(t.shape) == 4 * n * n
    ensures r.Err? ==> r.error == ValueError
    ensures r.Ok? ==> r.value.Valid() && r.value.shape == [2 * n, 2 * n] && r.value.data == t.data
  {
    ReshapeSize(n);
    if Dense.Prod(t.shape) != 4 * n * n then Err(ValueError) else Ok(Dense.Reshape(t, [2 * n, 2 * n]))
  }

  /** `from_xxpp` places entry (s N + i, t N + j) of the matrix at quadratures (s, t), modes (i, j),
    * and `to_xxpp` undoes it, in both directions. */
  lemma XxppRoundTrip(X: Dense.Tensor<real>, T: Dense.Tensor<real>, n: nat)
    requires X.Valid() && X.shape == [2 * n, 2 * n] && IsPhase(T, n)
    ensures FromXxpp(X, n).Ok? && ToXxpp(FromXxpp(X, n).value, n) == Ok(X)
    ensures ToXxpp(T, n).Ok? && FromXxpp(ToXxpp(T, n).value, n) == Ok(T)
    ensures forall s, i, t, j | 0 <= s < 2 && 0 <= i < n && 0 <= t < 2 && 0 <= j < n ::
      (Dense.InShape([s, i, t, j], [2, n, 2, n]) && Dense.InShape([s * n + i, t * n + j], X.shape)
      && Dense.At(FromXxpp(X, n).value, [s, i, t, j]) == Dense.At(X, [s * n + i, t * n + j]))
  {
    ReshapeSize(n);
    forall s, i, t, j | 0 <= s < 2 && 0 <= i < n && 0 <= t < 2 && 0 <= j < n
      ensures Dense.InShape([s, i, t, j], [2, n, 2, n]) && Dense.InShape([s * n + i, t * n + j], X.shape)
      ensures Dense.At(FromXxpp(X, n).value, [s, i, t, j]) == Dense.At(X, [s * n + i, t * n + j])
    {
      ReshapeEntry(X, n, s, i, t, j);
    }
  }

  /** `gather(gather(T, perm, axis=1), perm, axis=3)` with the identity permutation is T itself,
    * which is why `reorder_modes` may return early on it. */
  lemma GatherIdentity(T: Dense.Tensor<real>, n: nat)
    requires T.Valid() && |T.shape| >= 4 && T.shape[1] == n && T.shape[3] == n
    ensures Dense.GatherAxes13(T, Range(0, n)) == T
  {
    var G := Dense.GatherAxes13(T, Range(0, n));
    assert G.shape == T.shape;
    forall idx | Dense.InShape(idx, T.shape)
      ensures Dense.At(G, idx) == Dense.At(T, idx)
    {
      GatherIdentityAt(T, n, idx);
    }
    Dense.Extensional(G, T);
  }

  lemma GatherIdentityAt(T: Dense.Tensor<real>, n: nat, idx: seq<int>)
    requires T.Valid() && |T.shape| >= 4 && T.shape[1] == n && T.shape[3] == n
    requires Dense.InShape(idx, T.shape)
    ensures Dense.At(Dense.GatherAxes13(T, Range(0, n)), idx) == Dense.At(T, idx)
  {
    var perm := Range(0, n);
    var G := Dense.GatherAxes13(T, perm);
    assert G.shape == T.shape by {
      assert T.shape[1 := |perm|][3 := |perm|] == T.shape;
    }
    var moved := idx[1 := perm[idx[1]]][3 := perm[idx[3]]];
    assert moved == idx by {
      assert perm[idx[1]] == idx[1] && perm[idx[3]] == idx[3];
    }
  }

  /** The modes of a sum or product of two phase-space tensors: the sorted union of the operands'
    * modes. */
  function CombinedModes(a: seq<int>, b: seq<int>): (r: seq<int>)
    ensures StrictlyIncreasing(r)
    ensures forall x :: x in r <==> x in a || x in b
    ensures Distinct(r)
  {
    SortedUnion(a, b)
  }

  /** The combined modes are the same whichever operand comes first, and a tensor combined with
    * one on the same sorted modes keeps them. */
  lemma CombinedModesCommute(a: seq<int>, b: seq<int>)
    ensures CombinedModes(a, b) == CombinedModes(b, a)
    ensures StrictlyIncreasing(a) ==> CombinedModes(a, a) == a
  {
    SortedUnionCommutes(a, b);
    if StrictlyIncreasing(a) {
      StrictlyIncreasingUnique(CombinedModes(a, a), a);
    }
  }

  /** `[modes[i] for i in perm]`. */
  function Permuted(modes: seq<int>, perm: seq<int>): (r: seq<int>)
    requires AllBelow(perm, |modes|)
    ensures |r| == |perm| && forall k | 0 <= k < |perm| :: r[k] == modes[perm[k]]
  {
    seq(|perm|, k requires 0 <= k < |perm| => modes[perm[k]])
  }

  /** The phase-space tensor of the plugin, holding whatever tensor the constructor's check as
    * written lets through. `reorder_modes` permutes its modes in place. */
  class PhaseTensor {
    var modes: seq<int>
    var tensor: Dense.Tensor<real>
    const nmodes: nat
    const zeroBased: bool

    ghost predicate Valid()
      reads this
    {
      tensor.Valid() && ShapeCheckAsWritten(tensor.shape) == Pass && nmodes == |modes|
    }

    constructor (modes: seq<int>, tensor: Dense.Tensor<real>, zeroBased: bool)
      requires tensor.Valid() && ShapeCheckAsWritten(tensor.shape) == Pass
      ensures Valid()
      ensures this.modes == modes && this.tensor == tensor && this.zeroBased == zeroBased && nmodes == |modes|
    {
      this.modes := modes;
      this.tensor := tensor;
      this.zeroBased := zeroBased;
      this.nmodes := |modes|;
    }

    /** `to_xxpp`: a tensor with 4 N^2 entries, N the number of modes, reshapes to the 2N x 2N
      * matrix; any other tensor the check as written let through cannot be reshaped. */
    function Xxpp(): (r: Result<Dense.Tensor<real>>)
      reads this
      requires Valid()
      ensures r.Ok? <==> Dense.Prod(tensor.shape) == 4 * |modes| * |modes|
      ensures r.Err? ==> r.error == ValueError
      ensures r.Ok? ==> r.value.shape == [2 * |modes|, 2 * |modes|] && r.value.data == tensor.data
      ensures tensor.shape == [2, |modes|, 2, |modes|] ==> r.Ok?
    {
      ReshapeSize(|modes|);
      ToXxpp(tensor, |modes|)
    }

    /** `reorder_modes(perm)`. A permutation of the wrong length, or one with an entry outside
      * range(nmodes), raises ValueError. The identity changes nothing. Otherwise axes 1 and 3 of
      * the tensor are gathered at perm (IndexError, as numpy raises, if an entry of perm lies
      * outside axis 1 or axis 3, which the check as written lets differ) and the modes become
      * [modes[i] for i in perm]. */
    method ReorderModes(perm: seq<int>) returns (r: Outcome)
      requires Valid()
      modifies this
      ensures Valid()
      ensures |perm| != nmodes ==> r == Fail(ValueError) && unchanged(this)
      ensures |perm| == nmodes && !AllBelow(perm, nmodes) ==> r == Fail(ValueError) && unchanged(this)
      ensures |perm| == nmodes && AllBelow(perm, nmodes) && perm == Range(0, nmodes) ==> r == Pass && unchanged(this)
      ensures (|perm| == nmodes && AllBelow(perm, nmodes) && perm != Range(0, nmodes)
               && !(AllBelow(perm, old(tensor.shape[1])) && AllBelow(perm, old(tensor.shape[3]))))
        ==> r == Fail(IndexError) && unchanged(this)
      ensures (|perm| == nmodes && AllBelow(perm, nmodes) && perm != Range(0, nmodes)
               && AllBelow(perm, old(tensor.shape[1])) && AllBelow(perm, old(tensor.shape[3]))) ==>
        r == Pass && tensor == Dense.GatherAxes13(old(tensor), perm)
        && |old(modes)| == nmodes && modes == Permuted(old(modes), perm)
    {
      if |perm| != nmodes {
        return Fail(ValueError);
      }
      if !AllBelow(perm, nmodes) {
        return Fail(ValueError);
      }
      if perm == Range(0, nmodes) {
        return Pass;
      }
      if !AllBelow(perm, tensor.shape[1]) || !AllBelow(perm, tensor.shape[3]) {
        return Fail(IndexError);
      }
      tensor := Dense.GatherAxes13(tensor, perm);
      modes := Permuted(modes, perm);
      r := Pass;
    }
  }

  /** `XPTensor(modes, tensor, zero_based)`. Without a tensor the default one is used; a tensor
    * that fails the shape check as written (rank below 4, or none of its three tests holding)
    * raises ValueError, and modes that are not a list raise TypeError. */
  method NewPhaseTensor(modes: seq<int>, modesIsList: bool, tensor: Option<Dense.Tensor<real>>, zeroBased: bool)
    returns (r: Result<PhaseTensor>)
    requires tensor.Some? ==> tensor.value.Valid()
    ensures var t := if tensor.Some? then tensor.value else Default(|modes|, zeroBased);
      (ShapeCheckAsWritten(t.shape).Fail? ==> r == Err(ValueError))
      && (ShapeCheckAsWritten(t.shape) == Pass && !modesIsList ==> r == Err(TypeError))
      && (ShapeCheckAsWritten(t.shape) == Pass && modesIsList ==>
        r.Ok? && fresh(r.value) && r.value.Valid() && r.value.modes == modes && r.value.tensor == t
        && r.value.zeroBased == zeroBased)
  {
    var t := if tensor.Some? then tensor.value else Default(|modes|, zeroBased);
    if ShapeCheckAsWritten(t.shape).Fail? {
      return Err(ValueError);
    }
    if !modesIsList {
      return Err(TypeError);
    }
    var p := new PhaseTensor(modes, t, zeroBased);
    r := Ok(p);
  }

  /** `XPTensor.from_xxpp(matrix, modes, zero_based)`: the matrix reshaped to (2, N, 2, N), or the
    * default tensor when there is no matrix. */
  method NewFromXxpp(X: Option<Dense.Tensor<real>>, modes: seq<int>, zeroBased: bool) returns (r: Result<PhaseTensor>)
    requires X.Some? ==> X.value.Valid()
    ensures X.Some? && FromXxpp(X.value, |modes|).Err? ==> r == Err(ValueError)
    ensures (X.Some? && FromXxpp(X.value, |modes|).Ok? ==>
      r.Ok? && fresh(r.value) && r.value.Valid() && r.value.modes == modes
      && r.value.tensor == FromXxpp(X.value, |modes|).value)
    ensures (X.None? ==>
      r.Ok? && fresh(r.value) && r.value.Valid() && r.value.modes == modes && r.value.tensor == Default(|modes|, zeroBased))
  {
    var t: Option<Dense.Tensor<real>> := None;
    if X.Some? {
      var f := FromXxpp(X.value, |modes|);
      if f.Err? {
        return Err(f.error);
      }
      t := Some(f.value);
      assert ShapeCheckAsWritten(f.value.shape) == Pass;
    }
    r := NewPhaseTensor(modes, true, t, zeroBased);
  }

  // ---------------------------------------------------------------------------------------------
  // Gaussian states
  // ---------------------------------------------------------------------------------------------

  /** The diagonal matrix of a vector. */
  function Diag(v: Vector): (r: Matrix)
    ensures IsSquare(r, |v|)
    ensures forall k, l | 0 <= k < |v| && 0 <= l < |v| :: r[k][l] == if k == l then v[k] else 0.0
  {
    seq(|v|, k requires 0 <= k < |v| => seq(|v|, l requires 0 <= l < |v| => if k == l then v[k] else 0.0))
  }

  /** `vacuum_state(num_modes, hbar)`: covariance (hbar / 2) times the 2N x 2N identity and zero
    * means of length 2N. */
  function VacuumState(numModes: nat, hbar: real): (r: (Matrix, Vector))
    ensures IsSquare(r.0, 2 * numModes) && |r.1| == 2 * numModes
    ensures forall k, l | 0 <= k < 2 * numModes && 0 <= l < 2 * numModes :: r.0[k][l] == if k == l then hbar / 2.0 else 0.0
    ensures forall k | 0 <= k < 2 * numModes :: r.1[k] == 0.0
  {
    var n := 2 * numModes;
    (seq(n, k requires 0 <= k < n => seq(n, l requires 0 <= l < n => (if k == l then 1.0 else 0.0) * hbar / 2.0)), ZeroVector(n))
  }

  /** `thermal_state(nbar, hbar)`: a diagonal covariance holding (2 nbar_i + 1) hbar / 2 for the x
    * and again for the p quadrature of every mode i, and zero means. */
  function ThermalState(nbar: seq<real>, hbar: real): (r: (Matrix, Vector))
    ensures IsSquare(r.0, 2 * |nbar|) && |r.1| == 2 * |nbar|
    ensures forall i | 0 <= i < |nbar| ::
      r.0[i][i] == (2.0 * nbar[i] + 1.0) * hbar / 2.0 && r.0[|nbar| + i][|nbar| + i] == (2.0 * nbar[i] + 1.0) * hbar / 2.0
    ensures forall k, l | 0 <= k < 2 * |nbar| && 0 <= l < 2 * |nbar| && k != l :: r.0[k][l] == 0.0
    ensures forall k | 0 <= k < 2 * |nbar| :: r.1[k] == 0.0
  {
    var n := |nbar|;
    var g := seq(n, i requires 0 <= i < n => (2.0 * nbar[i] + 1.0) * hbar / 2.0);
    var gg := g + g;
    var cov := Diag(gg);
    assert forall i | 0 <= i < n :: gg[i] == g[i] && gg[n + i] == g[i];
    assert forall i | 0 <= i < n :: cov[i][i] == g[i] && cov[n + i][n + i] == g[i];
    (cov, ZeroVector(|cov|))
  }

  /** A thermal state with no photons in any mode is the vacuum. */
  lemma ThermalWithoutPhotonsIsVacuum(nbar: seq<real>, hbar: real)
    requires forall i | 0 <= i < |nbar| :: nbar[i] == 0.0
    ensures ThermalState(nbar, hbar) == VacuumState(|nbar|, hbar)
  {
    var n := |nbar|;
    var t := ThermalState(nbar, hbar);
    var v := VacuumState(n, hbar);
    assert t.1 == v.1;
    forall k | 0 <= k < 2 * n
      ensures t.0[k] == v.0[k]
    {
      assert |t.0[k]| == |v.0[k]| == 2 * n;
      forall l | 0 <= l < 2 * n
        ensures t.0[k][l] == v.0[k][l]
      {
        if k == l {
          var i := if k < n then k else k - n;
          assert nbar[i] == 0.0;
          assert k == i || k == n + i;
        }
      }
    }
    assert t.0 == v.0;
  }

  // ---------------------------------------------------------------------------------------------
  // Subsystems
  // ---------------------------------------------------------------------------------------------

  /** The indices of subsystem A (`Aindices`) and of the rest B (`Bindices`) in `partition_cov` and
    * `partition_means`: B is the ascending complement of A among range(N). */
  function PartitionIndices(n: nat, aModes: seq<int>): (r: (seq<int>, seq<int>))
    ensures r.0 == Doubled(aModes, n)
    ensures r.1 == Doubled(Complement(n, aModes), n)
  {
    (Doubled(aModes, n), Doubled(Complement(n, aModes), n))
  }

  /** For distinct modes of A among range(N), the indices of A followed by those of B are a
    * permutation of range(2N): the partition loses and repeats no quadrature. */
  lemma PartitionIsPermutation(n: nat, aModes: seq<int>)
    requires AllBelow(aModes, n) && Distinct(aModes)
    ensures IsPermutation(PartitionIndices(n, aModes).0 + PartitionIndices(n, aModes).1, 2 * n)
  {
    DoubledPartition(n, aModes);
  }

  /** `partition_cov(cov, Amodes)`: with N = cov.shape[-1] // 2 it returns the block of cov at the A
    * indices, the block at the B indices, and the block at rows A, columns B. An index outside the
    * matrix raises IndexError. */
  function PartitionCov(cov: Matrix, aModes: seq<int>): (r: Result<(Matrix, Matrix, Matrix)>)
    requires IsSquare(cov, |cov|)
    ensures var (aIdx, bIdx) := PartitionIndices(|cov| / 2, aModes);
      && (r.Ok? <==> AllBelow(aIdx, |cov|))
      && (r.Err? ==> r.error == IndexError)
      && (r.Ok? ==>
        var (A, B, AB) := r.value;
        && AllBelow(bIdx, |cov|)
        && IsSquare(A, |aIdx|) && IsSquare(B, |bIdx|) && |AB| == |aIdx|
        && (forall k, l | 0 <= k < |aIdx| && 0 <= l < |aIdx| :: A[k][l] == cov[aIdx[k]][aIdx[l]])
        && (forall k, l | 0 <= k < |bIdx| && 0 <= l < |bIdx| :: B[k][l] == cov[bIdx[k]][bIdx[l]])
        && (forall k | 0 <= k < |aIdx| :: |AB[k]| == |bIdx|)
        && (forall k, l | 0 <= k < |aIdx| && 0 <= l < |bIdx| :: AB[k][l] == cov[aIdx[k]][bIdx[l]]))
  {
    var n := |cov| / 2;
    var (aIdx, bIdx) := PartitionIndices(n, aModes);
    ComplementMembers(n, aModes);
    assert AllBelow(bIdx, |cov|) by {
      var c := Complement(n, aModes);
      forall k | 0 <= k < |c| ensures 0 <= c[k] < n {
        assert c[k] in c;
      }
    }
    if !AllBelow(aIdx, |cov|) then Err(IndexError)
    else Ok((Gather2(cov, aIdx), Gather2(cov, bIdx), GatherBlock(cov, aIdx, bIdx)))
  }

  /** `partition_means(means, Amodes)`: with N = len(means) // 2, the means at the A indices and at
    * the B indices; an index outside the vector raises IndexError. */
  function PartitionMeans(means: Vector, aModes: seq<int>): (r: Result<(Vector, Vector)>)
    ensures var (aIdx, bIdx) := PartitionIndices(|means| / 2, aModes);
      && (r.Ok? <==> AllBelow(aIdx, |means|))
      && (r.Err? ==> r.error == IndexError)
      && (r.Ok? ==> AllBelow(bIdx, |means|) && r.value == (Gather(means, aIdx), Gather(means, bIdx)))
  {
    var n := |means| / 2;
    var (aIdx, bIdx) := PartitionIndices(n, aModes);
    ComplementMembers(n, aModes);
    assert AllBelow(bIdx, |means|) by {
      var c := Complement(n, aModes);
      forall k | 0 <= k < |c| ensures 0 <= c[k] < n {
        assert c[k] in c;
      }
    }
    if !AllBelow(aIdx, |means|) then Err(IndexError)
    else Ok((Gather(means, aIdx), Gather(means, bIdx)))
  }

  /** For distinct modes of A among the N modes of a means vector of length 2N, the two parts are
    * the means gathered at a permutation of range(2N): together they hold every mean once. */
  lemma PartitionMeansIsPermutation(means: Vector, aModes: seq<int>)
    requires |means| % 2 == 0 && AllBelow(aModes, |means| / 2) && Distinct(aModes)
    ensures var (aIdx, bIdx) := PartitionIndices(|means| / 2, aModes);
      && IsPermutation(aIdx + bIdx, |means|)
      && PartitionMeans(means, aModes).Ok?
      && PartitionMeans(means, aModes).value.0 + PartitionMeans(means, aModes).value.1 == Gather(means, aIdx + bIdx)
  {
    var n := |means| / 2;
    PartitionIsPermutation(n, aModes);
    var (aIdx, bIdx) := PartitionIndices(n, aModes);
    assert AllBelow(aIdx, |means|) by {
      forall k | 0 <= k < |aIdx| ensures 0 <= aIdx[k] < |means| {
        assert aIdx[k] == (aIdx + bIdx)[k];
      }
    }
  }

  /** `trace(cov, means, Bmodes)` as written: it keeps, in ascending order, the indices i < N with i
    * not among the discarded modes, for the rows and columns of cov and for the means. Those are
    * only the x quadratures of the kept modes: their p quadratures are dropped. */
  function TraceAsWritten(cov: Matrix, means: Vector, bModes: seq<int>): (r: Result<(Matrix, Vector)>)
    requires IsSquare(cov, |cov|)
    ensures var idx := Complement(|cov| / 2, bModes);
      && (r.Ok? <==> AllBelow(idx, |means|))
      && (r.Err? ==> r.error == IndexError)
      && AllBelow(idx, |cov|)
      && (r.Ok? ==> r.value == (Gather2(cov, idx), Gather(means, idx)) && |r.value.0| == |idx|)
  {
    var idx := Complement(|cov| / 2, bModes);
    ComplementMembers(|cov| / 2, bModes);
    assert AllBelow(idx, |cov|) by {
      forall k | 0 <= k < |idx| ensures 0 <= idx[k] < |cov| {
        assert idx[k] in idx;
      }
    }
    if !AllBelow(idx, |means|) then Err(IndexError)
    else Ok((Gather2(cov, idx), Gather(means, idx)))
  }

  /** `trace` as its documentation intends: the covariance and means of the modes that are kept,
    * both quadratures of each. */
  function Trace(cov: Matrix, means: Vector, bModes: seq<int>): (r: Result<(Matrix, Vector)>)
    requires IsSquare(cov, |cov|)
    ensures var idx := Doubled(Complement(|cov| / 2, bModes), |cov| / 2);
      && (r.Ok? <==> AllBelow(idx, |means|))
      && (r.Err? ==> r.error == IndexError)
      && AllBelow(idx, |cov|)
      && (r.Ok? ==> r.value == (Gather2(cov, idx), Gather(means, idx)))
  {
    var n := |cov| / 2;
    var keep := Complement(n, bModes);
    var idx := Doubled(keep, n);
    ComplementMembers(n, bModes);
    assert AllBelow(idx, |cov|) by {
      forall k | 0 <= k < |idx| ensures 0 <= idx[k] < |cov| {
        if k < |keep| { assert keep[k] in keep; } else { assert keep[k - |keep|] in keep; }
      }
    }
    if !AllBelow(idx, |means|) then Err(IndexError)
    else Ok((Gather2(cov, idx), Gather(means, idx)))
  }

  /** The one-mode vacuum with no mode discarded: the trace as written returns a 1 x 1 covariance
    * and one mean, the intended trace gives the state back. */
  lemma TraceAsWrittenDropsMomenta()
    ensures var (cov, means) := VacuumState(1, 2.0);
      && TraceAsWritten(cov, means, []).Ok? && |TraceAsWritten(cov, means, []).value.0| == 1
      && Trace(cov, means, []) == Ok((cov, means))
  {
    var (cov, means) := VacuumState(1, 2.0);
    var none: seq<int> := [];
    assert Complement(1, none) == [0] by {
      assert Complement(0, none) == [];
    }
    TraceNothing(cov, means);
  }

  /** Discarding no mode leaves a state of 2N quadratures unchanged. */
  lemma TraceNothing(cov: Matrix, means: Vector)
    requires IsSquare(cov, |cov|) && |means| == |cov| && |cov| % 2 == 0
    ensures Trace(cov, means, []) == Ok((cov, means))
  {
    var n := |cov| / 2;
    ComplementOfNothing(n);
    var idx := Doubled(Range(0, n), n);
    assert forall k | 0 <= k < |idx| :: idx[k] == k;
    GatherAtIdentity(cov, means, idx);
  }

  /** Discarding no mode keeps every mode, in order. */
  lemma ComplementOfNothing(n: nat)
    ensures Complement(n, []) == Range(0, n)
  {
    var none: seq<int> := [];
    ComplementMembers(n, none);
    ComplementPartition(n, none);
    var keep := Complement(n, none);
    forall x ensures x in keep <==> x in Range(0, n) {
      if 0 <= x < n {
        assert Range(0, n)[x] == x;
      }
    }
    StrictlyIncreasingUnique(keep, Range(0, n));
  }

  /** Gathering at the identity index list changes nothing. */
  lemma GatherAtIdentity(cov: Matrix, means: Vector, idx: seq<int>)
    requires IsSquare(cov, |cov|) && |means| == |cov| && |idx| == |cov|
    requires forall k | 0 <= k < |idx| :: idx[k] == k
    ensures Gather2(cov, idx) == cov && Gather(means, idx) == means
  {
    assert Gather(means, idx) == means;
    forall k | 0 <= k < |cov| ensures Gather2(cov, idx)[k] == cov[k] {
      assert |Gather2(cov, idx)[k]| == |cov[k]|;
    }
  }

  /** The intended trace keeps exactly the A block of the partition of the covariance, and the A
    * part of the means, with A the modes that are not discarded. */
  lemma TraceIsPartitionBlock(cov: Matrix, means: Vector, bModes: seq<int>)
    requires IsSquare(cov, |cov|) && |means| == |cov|
    ensures var aModes := Complement(|cov| / 2, bModes);
      && Trace(cov, means, bModes).Ok? && PartitionCov(cov, aModes).Ok? && PartitionMeans(means, aModes).Ok?
      && Trace(cov, means, bModes).value == (PartitionCov(cov, aModes).value.0, PartitionMeans(means, aModes).value.0)
  {
  }

  /** The mode split of `general_dyne(cov, means, proj_cov, proj_means, modes, hbar)`: N = len(cov)
    * // 2 modes, nB = len(proj_cov) // 2 of them measured, nA = N - nB left, and the remaining
    * system A is the ascending list of the modes in range(N) that are not measured. */
  function DyneSplit(cov: Matrix, projCov: Matrix, modes: seq<int>): (r: (seq<int>, int, int))
    ensures StrictlyIncreasing(r.0) && forall x :: x in r.0 <==> 0 <= x < |cov| / 2 && x !in modes
    ensures r.2 == |projCov| / 2 && r.1 == |cov| / 2 - |projCov| / 2
  {
    ComplementMembers(|cov| / 2, modes);
    (Complement(|cov| / 2, modes), |cov| / 2 - |projCov| / 2, |projCov| / 2)
  }

  /** When the measured modes are distinct modes of the state and the projector has one mode per
    * measured mode, the remaining system has exactly nA modes, and they together with the measured
    * modes are a permutation of the state's modes. */
  lemma DyneSplitCounts(cov: Matrix, projCov: Matrix, modes: seq<int>)
    requires AllBelow(modes, |cov| / 2) && Distinct(modes) && |projCov| / 2 == |modes|
    ensures |DyneSplit(cov, projCov, modes).0| == DyneSplit(cov, projCov, modes).1
    ensures IsPermutation(modes + DyneSplit(cov, projCov, modes).0, |cov| / 2)
  {
    ComplementPartition(|cov| / 2, modes);
  }
}
