/** The sparse phase-space tensors of mrmustard/utils/xptensor.py: a batch of n x m blocks of 2 x 2
  * (matrices) or of n pairs (vectors) over out-modes and in-modes, with "like_0"/"like_1" null
  * semantics. The tensor entries are exact reals; the layout conversions are stated on one batch
  * entry and the mode bookkeeping on mode lists. */
module XPTensors {
  import opened Wrappers
  import opened Seqs
  import opened LinAlg
  import Dense

  /** One batch entry of a matrix tensor: the (n, m, 2, 2) layout, block (i, j) coupling out-mode i
    * with in-mode j. */
  type BlockMatrix = seq<seq<Matrix>>

  /** One batch entry of a vector tensor: the (n, 2) layout, one (x, p) pair per mode. */
  type BlockVector = seq<Vector>

  predicate IsMatrixOf(X: Matrix, rows: nat, cols: nat)
  {
    |X| == rows && forall r | 0 <= r < rows :: |X[r]| == cols
  }

  predicate IsBlockMatrix(T: BlockMatrix, n: nat, m: nat)
  {
    |T| == n && forall i | 0 <= i < n :: |T[i]| == m && forall j | 0 <= j < m :: IsSquare(T[i][j], 2)
  }

  predicate IsBlockVector(V: BlockVector, n: nat)
  {
    |V| == n && forall i | 0 <= i < n :: |V[i]| == 2
  }

  /** A 2 x 2 matrix is the display of its four entries. */
  lemma TwoByTwo(B: Matrix)
    requires IsSquare(B, 2)
    ensures B == [[B[0][0], B[0][1]], [B[1][0], B[1][1]]]
  {
    assert B[0] == [B[0][0], B[0][1]];
    assert B[1] == [B[1][0], B[1][1]];
  }

  // ------------------------------------------------------------------------------------------
  // Layout conversions of one batch entry
  // ------------------------------------------------------------------------------------------

  /** `XPMatrix.from_xpxp`: reshape (2n, 2m) to (n, 2, m, 2) and swap the middle axes, so block
    * (i, j) holds rows 2i, 2i + 1 and columns 2j, 2j + 1. */
  function FromXpxp(X: Matrix, n: nat, m: nat): (T: BlockMatrix)
    requires IsMatrixOf(X, 2 * n, 2 * m)
    ensures IsBlockMatrix(T, n, m)
  {
    seq(n, i requires 0 <= i < n => seq(m, j requires 0 <= j < m =>
      [[X[2 * i][2 * j], X[2 * i][2 * j + 1]], [X[2 * i + 1][2 * j], X[2 * i + 1][2 * j + 1]]]))
  }

  /** `XPTensor.to_xpxp` on a matrix: swap axes 2 and 3 back and reshape to (2n, 2m). */
  function ToXpxp(T: BlockMatrix, n: nat, m: nat): (X: Matrix)
    requires IsBlockMatrix(T, n, m)
    ensures IsMatrixOf(X, 2 * n, 2 * m)
  {
    seq(2 * n, r requires 0 <= r < 2 * n => seq(2 * m, c requires 0 <= c < 2 * m => T[r / 2][c / 2][r % 2][c % 2]))
  }

  /** Entry (s, t) of block (i, j) after `from_xpxp`. */
  lemma FromXpxpEntry(X: Matrix, n: nat, m: nat, i: nat, j: nat, s: nat, t: nat)
    requires IsMatrixOf(X, 2 * n, 2 * m) && i < n && j < m && s < 2 && t < 2
    ensures FromXpxp(X, n, m)[i][j][s][t] == X[2 * i + s][2 * j + t]
  {
    var B := FromXpxp(X, n, m)[i][j];
    assert B == [[X[2 * i][2 * j], X[2 * i][2 * j + 1]], [X[2 * i + 1][2 * j], X[2 * i + 1][2 * j + 1]]];
  }

  /** `to_xpxp` undoes `from_xpxp`. */
  lemma XpxpRoundTrip(X: Matrix, n: nat, m: nat)
    requires IsMatrixOf(X, 2 * n, 2 * m)
    ensures ToXpxp(FromXpxp(X, n, m), n, m) == X
  {
    var T := FromXpxp(X, n, m);
    var Y := ToXpxp(T, n, m);
    forall r | 0 <= r < 2 * n
      ensures Y[r] == X[r]
    {
      forall c | 0 <= c < 2 * m
        ensures Y[r][c] == X[r][c]
      {
        assert Y[r][c] == T[r / 2][c / 2][r % 2][c % 2];
        FromXpxpEntry(X, n, m, r / 2, c / 2, r % 2, c % 2);
        assert 2 * (r / 2) + r % 2 == r && 2 * (c / 2) + c % 2 == c;
      }
    }
  }

  /** `from_xpxp` undoes `to_xpxp`: the two layouts are in bijection. */
  lemma XpxpRoundTripBlocks(T: BlockMatrix, n: nat, m: nat)
    requires IsBlockMatrix(T, n, m)
    ensures FromXpxp(ToXpxp(T, n, m), n, m) == T
  {
    var X := ToXpxp(T, n, m);
    var U := FromXpxp(X, n, m);
    forall i | 0 <= i < n
      ensures U[i] == T[i]
    {
      forall j | 0 <= j < m
        ensures U[i][j] == T[i][j]
      {
        XpxpBlock(T, n, m, i, j);
      }
    }
  }

  /** Block (i, j) comes back from `to_xpxp` followed by `from_xpxp`. */
  lemma XpxpBlock(T: BlockMatrix, n: nat, m: nat, i: nat, j: nat)
    requires IsBlockMatrix(T, n, m) && i < n && j < m
    ensures FromXpxp(ToXpxp(T, n, m), n, m)[i][j] == T[i][j]
  {
    var X := ToXpxp(T, n, m);
    var B := FromXpxp(X, n, m)[i][j];
    TwoByTwo(B);
    TwoByTwo(T[i][j]);
    forall s, t | 0 <= s < 2 && 0 <= t < 2
      ensures B[s][t] == T[i][j][s][t]
    {
      ToXpxpEntry(T, n, m, i, j, s, t);
      FromXpxpEntry(X, n, m, i, j, s, t);
    }
  }

  /** Entry (2i + s, 2j + t) after `to_xpxp` is entry (s, t) of block (i, j). */
  lemma ToXpxpEntry(T: BlockMatrix, n: nat, m: nat, i: nat, j: nat, s: nat, t: nat)
    requires IsBlockMatrix(T, n, m) && i < n && j < m && s < 2 && t < 2
    ensures 2 * i + s < 2 * n && 2 * j + t < 2 * m
    ensures ToXpxp(T, n, m)[2 * i + s][2 * j + t] == T[i][j][s][t]
  {
    assert (2 * i + s) / 2 == i && (2 * i + s) % 2 == s;
    assert (2 * j + t) / 2 == j && (2 * j + t) % 2 == t;
  }

  /** `XPVector.from_xpxp`: reshape (2n) to (n, 2). */
  function FromXpxpVec(x: Vector, n: nat): (V: BlockVector)
    requires |x| == 2 * n
    ensures IsBlockVector(V, n)
  {
    seq(n, i requires 0 <= i < n => [x[2 * i], x[2 * i + 1]])
  }

  /** `XPTensor.to_xpxp` on a vector: reshape (n, 2) to (2n). */
  function ToXpxpVec(V: BlockVector, n: nat): (x: Vector)
    requires IsBlockVector(V, n)
    ensures |x| == 2 * n
  {
    seq(2 * n, r requires 0 <= r < 2 * n => V[r / 2][r % 2])
  }

  lemma XpxpVecRoundTrip(x: Vector, n: nat)
    requires |x| == 2 * n
    ensures ToXpxpVec(FromXpxpVec(x, n), n) == x
  {
    var y := ToXpxpVec(FromXpxpVec(x, n), n);
    forall r | 0 <= r < 2 * n
      ensures y[r] == x[r]
    {
      assert 2 * (r / 2) + r % 2 == r;
    }
  }

  lemma XpxpVecRoundTripBlocks(V: BlockVector, n: nat)
    requires IsBlockVector(V, n)
    ensures FromXpxpVec(ToXpxpVec(V, n), n) == V
  {
    var W := FromXpxpVec(ToXpxpVec(V, n), n);
    forall i | 0 <= i < n
      ensures W[i] == V[i]
    {
      assert (2 * i) / 2 == i && (2 * i + 1) / 2 == i && (2 * i) % 2 == 0 && (2 * i + 1) % 2 == 1;
    }
  }

  /** `XPMatrix.from_xxpp`: reshape (2n, 2m) to (2, n, 2, m) and move the two quadrature axes last,
    * so entry (s, t) of block (i, j) is entry (s n + i, t m + j) of the xxpp matrix. */
  function FromXxpp(X: Matrix, n: nat, m: nat): (T: BlockMatrix)
    requires IsMatrixOf(X, 2 * n, 2 * m)
    ensures IsBlockMatrix(T, n, m)
  {
    seq(n, i requires 0 <= i < n => seq(m, j requires 0 <= j < m =>
      [[X[i][j], X[i][m + j]], [X[n + i][j], X[n + i][m + j]]]))
  }

  /** The number of entries of a (2, 2, n, m) array is that of a (2n, 2m) one. */
  lemma ReshapeBound(r: nat, c: nat, n: nat, m: nat)
    requires r < 2 * n && c < 2 * m
    ensures r * (2 * m) + c < Dense.Prod([2, 2, n, m])
  {
    Dense.MulMonotone(r, 2 * n, 2 * m);
    assert [2, 2, n, m][1..] == [2, n, m] && [2, n, m][1..] == [n, m] && [n, m][1..] == [m] && [m][1..] == [];
    assert Dense.Prod([m]) == m;
    assert Dense.Prod([n, m]) == n * m;
    assert Dense.Prod([2, n, m]) == 2 * (n * m);
    assert Dense.Prod([2, 2, n, m]) == 2 * (2 * (n * m));
    assert (2 * n) * (2 * m) == 2 * (2 * (n * m));
  }

  /** `XPTensor.to_xxpp` on a matrix, as written: `modes_last` gives the (2, 2, n, m) layout, which
    * is then reshaped row-major to (2n, 2m). */
  function ToXxppAsWritten(T: BlockMatrix, n: nat, m: nat): (X: Matrix)
    requires IsBlockMatrix(T, n, m)
    ensures IsMatrixOf(X, 2 * n, 2 * m)
  {
    seq(2 * n, r requires 0 <= r < 2 * n => seq(2 * m, c requires 0 <= c < 2 * m =>
      ReshapeBound(r, c, n, m);
      var idx := Dense.Unflatten(r * (2 * m) + c, [2, 2, n, m]);
      T[idx[2]][idx[3]][idx[0]][idx[1]]))
  }

  /** The xxpp layout that `from_xxpp` reads: the transposition (0, 3, 1, 4, 2) before the
    * reshape, so row s n + i and column t m + j come from entry (s, t) of block (i, j). */
  function ToXxpp(T: BlockMatrix, n: nat, m: nat): (X: Matrix)
    requires IsBlockMatrix(T, n, m)
    ensures IsMatrixOf(X, 2 * n, 2 * m)
  {
    seq(2 * n, r requires 0 <= r < 2 * n => seq(2 * m, c requires 0 <= c < 2 * m =>
      T[if r < n then r else r - n][if c < m then c else c - m][if r < n then 0 else 1][if c < m then 0 else 1]))
  }

  lemma XxppRoundTrip(X: Matrix, n: nat, m: nat)
    requires IsMatrixOf(X, 2 * n, 2 * m)
    ensures ToXxpp(FromXxpp(X, n, m), n, m) == X
  {
    var T := FromXxpp(X, n, m);
    var Y := ToXxpp(T, n, m);
    forall r | 0 <= r < 2 * n
      ensures Y[r] == X[r]
    {
      forall c | 0 <= c < 2 * m
        ensures Y[r][c] == X[r][c]
      {
        XxppEntry(X, n, m, r, c);
      }
    }
  }

  /** Entry (r, c) survives `from_xxpp` followed by `to_xxpp`. */
  lemma XxppEntry(X: Matrix, n: nat, m: nat, r: nat, c: nat)
    requires IsMatrixOf(X, 2 * n, 2 * m) && r < 2 * n && c < 2 * m
    ensures ToXxpp(FromXxpp(X, n, m), n, m)[r][c] == X[r][c]
  {
    var T := FromXxpp(X, n, m);
    var i := if r < n then r else r - n;
    var j := if c < m then c else c - m;
    var s := if r < n then 0 else 1;
    var t := if c < m then 0 else 1;
    ToXxppEntry(T, n, m, r, c);
    FromXxppEntry(X, n, m, i, j, s, t);
    assert (if s == 0 then i else n + i) == r;
    assert (if t == 0 then j else m + j) == c;
  }

  lemma ToXxppEntry(T: BlockMatrix, n: nat, m: nat, r: nat, c: nat)
    requires IsBlockMatrix(T, n, m) && r < 2 * n && c < 2 * m
    ensures ToXxpp(T, n, m)[r][c] == T[if r < n then r else r - n][if c < m then c else c - m][if r < n then 0 else 1][if c < m then 0 else 1]
  {
  }

  /** Entry (s, t) of block (i, j) after `from_xxpp`. */
  lemma FromXxppEntry(X: Matrix, n: nat, m: nat, i: nat, j: nat, s: nat, t: nat)
    requires IsMatrixOf(X, 2 * n, 2 * m) && i < n && j < m && s < 2 && t < 2
    ensures FromXxpp(X, n, m)[i][j][s][t] == X[if s == 0 then i else n + i][if t == 0 then j else m + j]
  {
    var B := FromXxpp(X, n, m)[i][j];
    assert B == [[X[i][j], X[i][m + j]], [X[n + i][j], X[n + i][m + j]]];
  }

  lemma XxppRoundTripBlocks(T: BlockMatrix, n: nat, m: nat)
    requires IsBlockMatrix(T, n, m)
    ensures FromXxpp(ToXxpp(T, n, m), n, m) == T
  {
    var U := FromXxpp(ToXxpp(T, n, m), n, m);
    forall i | 0 <= i < n
      ensures U[i] == T[i]
    {
      forall j | 0 <= j < m
        ensures U[i][j] == T[i][j]
      {
        TwoByTwo(T[i][j]);
      }
    }
  }

  /** The 4 x 4 identity, a two-mode xxpp matrix. */
  function Identity4(): (I: Matrix)
    ensures IsMatrixOf(I, 4, 4)
  {
    [[1.0, 0.0, 0.0, 0.0], [0.0, 1.0, 0.0, 0.0], [0.0, 0.0, 1.0, 0.0], [0.0, 0.0, 0.0, 1.0]]
  }

  /** Row-major position 3 of a (2, 2, 2, 2) array is the index (0, 0, 1, 1). */
  lemma UnflattenThree()
    ensures Dense.Unflatten(3, [2, 2, 2, 2]) == [0, 0, 1, 1]
  {
    assert [2, 2, 2, 2][1..] == [2, 2, 2] && [2, 2, 2][1..] == [2, 2] && [2, 2][1..] == [2] && [2][1..] == [];
    assert Dense.Prod([2]) == 2;
    assert Dense.Prod([2, 2]) == 4;
    assert Dense.Prod([2, 2, 2]) == 8;
    assert Dense.Unflatten(1, [2]) == [1];
    assert Dense.Unflatten(3, [2, 2]) == [1] + Dense.Unflatten(1, [2]);
    assert Dense.Unflatten(3, [2, 2, 2]) == [0] + Dense.Unflatten(3, [2, 2]);
    assert Dense.Unflatten(3, [2, 2, 2, 2]) == [0] + Dense.Unflatten(3, [2, 2, 2]);
  }

  /** As written, `to_xxpp` does not undo `from_xxpp` on two modes: the identity comes back with a
    * 1 at row 0, column 3. */
  lemma ToXxppAsWrittenBreaksRoundTrip()
    ensures ToXxppAsWritten(FromXxpp(Identity4(), 2, 2), 2, 2)[0][3] == 1.0
    ensures Identity4()[0][3] == 0.0
    ensures ToXxppAsWritten(FromXxpp(Identity4(), 2, 2), 2, 2) != Identity4()
  {
    var T := FromXxpp(Identity4(), 2, 2);
    var Y := ToXxppAsWritten(T, 2, 2);
    UnflattenThree();
    assert 0 * (2 * 2) + 3 == 3;
    assert Y[0][3] == T[1][1][0][0];
    assert T[1][1] == [[Identity4()[1][1], Identity4()[1][3]], [Identity4()[3][1], Identity4()[3][3]]];
  }

  /** `XPVector.from_xxpp`: reshape (2n) to (2, n) and transpose, so pair i is (x[i], x[n + i]). */
  function FromXxppVec(x: Vector, n: nat): (V: BlockVector)
    requires |x| == 2 * n
    ensures IsBlockVector(V, n)
  {
    seq(n, i requires 0 <= i < n => [x[i], x[n + i]])
  }

  /** `XPTensor.to_xxpp` on a vector, as written: `modes_last` is the identity transposition on
    * vectors, so the reshape gives the xpxp order. */
  function ToXxppVecAsWritten(V: BlockVector, n: nat): (x: Vector)
    requires IsBlockVector(V, n)
    ensures |x| == 2 * n
  {
    ToXpxpVec(V, n)
  }

  /** The xxpp vector `from_xxpp` reads: all x entries, then all p entries. */
  function ToXxppVec(V: BlockVector, n: nat): (x: Vector)
    requires IsBlockVector(V, n)
    ensures |x| == 2 * n
  {
    seq(2 * n, r requires 0 <= r < 2 * n => if r < n then V[r][0] else V[r - n][1])
  }

  lemma XxppVecRoundTrip(x: Vector, n: nat)
    requires |x| == 2 * n
    ensures ToXxppVec(FromXxppVec(x, n), n) == x
  {
  }

  lemma XxppVecRoundTripBlocks(V: BlockVector, n: nat)
    requires IsBlockVector(V, n)
    ensures FromXxppVec(ToXxppVec(V, n), n) == V
  {
    var W := FromXxppVec(ToXxppVec(V, n), n);
    forall i | 0 <= i < n
      ensures W[i] == V[i]
    {
      assert V[i] == [V[i][0], V[i][1]];
    }
  }

  /** As written, the batch entry (x1, x2, p1, p2) = (1, 2, 3, 4) of a batch of one comes back
    * from `from_xxpp` and `to_xxpp` as (1, 3, 2, 4). (An unbatched vector does not reach the
    * reshape: line 510 reads `tensor.shape[1]` of the rank-1 input.) */
  lemma ToXxppVecAsWrittenBreaksRoundTrip()
    ensures ToXxppVecAsWritten(FromXxppVec([1.0, 2.0, 3.0, 4.0], 2), 2) == [1.0, 3.0, 2.0, 4.0]
  {
    var V := FromXxppVec([1.0, 2.0, 3.0, 4.0], 2);
    assert V == [[1.0, 3.0], [2.0, 4.0]];
    var y := ToXxppVecAsWritten(V, 2);
    assert y[0] == V[0][0] && y[1] == V[0][1] && y[2] == V[1][0] && y[3] == V[1][1];
  }

  // ------------------------------------------------------------------------------------------
  // Constructor validation
  // ------------------------------------------------------------------------------------------

  /** `tensor.shape[1:(len(tensor.shape) + 1) // 2]`, the mode shape: (n, m) of a (b, n, m, 2, 2)
    * matrix tensor and (n) of a (b, n, 2) vector tensor. */
  function CoreShape(shape: seq<nat>): (r: seq<nat>)
    ensures |shape| == 5 ==> r == shape[1..3]
    ensures |shape| == 3 ==> r == shape[1..2]
    ensures |r| == if |shape| <= 2 then 0 else (|shape| + 1) / 2 - 1
  {
    var hi := (|shape| + 1) / 2;
    if hi <= 1 then [] else shape[1..hi]
  }

  /** `self.ndim`: None without a tensor. */
  function Ndim(shape: Option<seq<nat>>): Option<nat>
  {
    if shape.None? then None else Some(|CoreShape(shape.value)|)
  }

  /** `set(out) == set(in) or set(out).isdisjoint(in)`. */
  predicate ModesCompatible(outmodes: seq<int>, inmodes: seq<int>)
  {
    Elems(outmodes) == Elems(inmodes) || Elems(outmodes) * Elems(inmodes) == {}
  }

  /** The checks of `XPTensor.__init__`, in order; each failure is a ValueError. */
  function InitCheck(shape: Option<seq<nat>>, like0: bool, isVector: bool, outmodes: seq<int>, inmodes: seq<int>): Outcome
  {
    if Ndim(shape) == Some(1) && !isVector then Fail(ValueError)
    else if Ndim(shape) == Some(2) && isVector then Fail(ValueError)
    else if isVector && !like0 then Fail(ValueError)
    else if !ModesCompatible(outmodes, inmodes) then Fail(ValueError)
    else Pass
  }

  /** A (b, n, m, 2, 2) tensor is accepted exactly as a matrix with compatible modes. */
  lemma InitMatrixShape(b: nat, n: nat, m: nat, like0: bool, isVector: bool, outmodes: seq<int>, inmodes: seq<int>)
    ensures InitCheck(Some([b, n, m, 2, 2]), like0, isVector, outmodes, inmodes) == Pass <==> !isVector && ModesCompatible(outmodes, inmodes)
  {
    assert |CoreShape([b, n, m, 2, 2])| == 2;
  }

  /** A (b, n, 2) tensor is accepted exactly as a like_0 vector, whatever its modes. */
  lemma InitVectorShape(b: nat, n: nat, like0: bool, isVector: bool, outmodes: seq<int>)
    ensures InitCheck(Some([b, n, 2]), like0, isVector, outmodes, []) == Pass <==> isVector && like0
  {
    assert |CoreShape([b, n, 2])| == 1;
    var none: seq<int> := [];
    assert Elems(outmodes) * Elems(none) == {};
  }

  /** The `modes` argument of `XPMatrix`: a tuple of two lists, or anything else. */
  datatype ModesArg = TwoLists(outs: seq<int>, ins: seq<int>) | Malformed

  /** What a successful constructor stores besides the tensor. */
  datatype Header = Header(like0: bool, outmodes: seq<int>, inmodes: seq<int>)

  /** `XPMatrix.__init__`: exactly one of like_0 and like_1 must decide the null behaviour, the modes
    * must be two lists, and two empty lists with a tensor default to `range` of its mode shape
    * (after rejecting, for a like_0 tensor, a batch size that differs from the out-mode size, as
    * the check `tensor.shape[0] != tensor.shape[1]` is written). */
  function MatrixInit(shape: Option<seq<nat>>, like0: Option<bool>, like1: Option<bool>, modes: ModesArg): (r: Result<Header>)
    ensures like0.None? && like1.None? ==> r == Err(ValueError)
    ensures like0.Some? && like1.Some? && like0.value == like1.value ==> r == Err(ValueError)
    ensures modes.Malformed? ==> r == Err(ValueError)
    ensures r.Ok? && like0.Some? ==> r.value.like0 == like0.value
    ensures r.Ok? && like1.Some? ==> r.value.like0 == !like1.value
    ensures r.Ok? && !(modes.outs == [] && modes.ins == [] && shape.Some?) ==>
      r.value.outmodes == modes.outs && r.value.inmodes == modes.ins
    ensures r.Ok? && modes.outs == [] && modes.ins == [] && shape.Some? ==>
      |shape.value| >= 3 && r.value.outmodes == Range(0, shape.value[1]) && r.value.inmodes == Range(0, shape.value[2])
    ensures r.Ok? ==> InitCheck(shape, r.value.like0, false, r.value.outmodes, r.value.inmodes) == Pass
    ensures r.Err? ==> r.error == ValueError || r.error == IndexError
  {
    if like0.None? && like1.None? then Err(ValueError)
    else if like0 == like1 then Err(ValueError)
    else if modes.Malformed? then Err(ValueError)
    else
      var defaulted := modes.outs == [] && modes.ins == [] && shape.Some?;
      if defaulted && |shape.value| < 2 then Err(IndexError)
      else if defaulted && shape.value[0] != shape.value[1] && like0 == Some(true) then Err(ValueError)
      else if defaulted && |shape.value| < 3 then Err(IndexError)
      else
        var om := if defaulted then Range(0, shape.value[1]) else modes.outs;
        var im := if defaulted then Range(0, shape.value[2]) else modes.ins;
        var l0 := if like0.Some? then like0.value else !like1.value;
        if InitCheck(shape, l0, false, om, im) == Pass then Ok(Header(l0, om, im)) else Err(ValueError)
  }

  /** The `modes` argument of `XPVector`: whether it is a list, whether its entries are all ints. */
  datatype VectorModesArg = VectorModesArg(isList: bool, allInts: bool, modes: seq<int>)

  /** `XPVector.__init__`: the modes must be a list or consist of ints; empty modes with a tensor
    * default to `range(tensor.shape[0])` (the batch axis, as written); vectors are always like_0
    * and have no in-modes. */
  function VectorInit(shape: Option<seq<nat>>, arg: VectorModesArg): (r: Result<Header>)
    ensures !arg.isList && !arg.allInts ==> r == Err(ValueError)
    ensures r.Ok? ==> r.value.like0 && r.value.inmodes == []
    ensures r.Ok? && !(arg.modes == [] && shape.Some?) ==> r.value.outmodes == arg.modes
    ensures r.Ok? && arg.modes == [] && shape.Some? ==> |shape.value| >= 1 && r.value.outmodes == Range(0, shape.value[0])
    ensures r.Ok? ==> InitCheck(shape, true, true, r.value.outmodes, []) == Pass
    ensures (arg.isList || arg.allInts) && shape.Some? && |shape.value| == 3 ==> r.Ok?
    ensures (arg.isList || arg.allInts) && shape.Some? && |shape.value| == 5 ==> r == Err(ValueError)
  {
    if !(arg.isList || arg.allInts) then Err(ValueError)
    else
      var defaulted := arg.modes == [] && shape.Some?;
      if defaulted && |shape.value| < 1 then Err(IndexError)
      else
        var om := if defaulted then Range(0, shape.value[0]) else arg.modes;
        ghost var none: seq<int> := [];
        assert Elems(om) * Elems(none) == {};
        if InitCheck(shape, true, true, om, []) == Pass then Ok(Header(true, om, [])) else Err(ValueError)
  }

  // ------------------------------------------------------------------------------------------
  // Tensors
  // ------------------------------------------------------------------------------------------

  /** The tensor of an XPTensor: a batch of block matrices of n x m blocks, or of block vectors of
    * n pairs. */
  datatype Payload = MatP(n: nat, m: nat, blocks: seq<BlockMatrix>) | VecP(n: nat, vecs: seq<BlockVector>)
  {
    predicate WellFormed()
    {
      match this
      case MatP(n, m, bs) => forall b | 0 <= b < |bs| :: IsBlockMatrix(bs[b], n, m)
      case VecP(n, vs) => forall b | 0 <= b < |vs| :: IsBlockVector(vs[b], n)
    }

    /** `tensor.shape`. */
    function Shape(): seq<nat>
    {
      if MatP? then [|blocks|, n, m, 2, 2] else [|vecs|, n, 2]
    }

    function BatchSize(): nat
    {
      if MatP? then |blocks| else |vecs|
    }

    /** The length of the in-mode axis of a matrix; a vector has none. */
    function Cols(): Option<nat>
    {
      if MatP? then Some(m) else None
    }
  }

  function ShapeOf(t: Option<Payload>): Option<seq<nat>>
  {
    if t.None? then None else Some(t.value.Shape())
  }

  /** The block transpose `transpose(tensor, (0, 2, 1, 4, 3))` of one batch entry. */
  function TransposeBlocks(T: BlockMatrix, n: nat, m: nat): (U: BlockMatrix)
    requires IsBlockMatrix(T, n, m)
    ensures IsBlockMatrix(U, m, n)
    ensures forall j, i, s, t | 0 <= j < m && 0 <= i < n && 0 <= s < 2 && 0 <= t < 2 :: U[j][i][s][t] == T[i][j][t][s]
  {
    seq(m, j requires 0 <= j < m => seq(n, i requires 0 <= i < n =>
      [[T[i][j][0][0], T[i][j][1][0]], [T[i][j][0][1], T[i][j][1][1]]]))
  }

  lemma TransposeBlocksInvolution(T: BlockMatrix, n: nat, m: nat)
    requires IsBlockMatrix(T, n, m)
    ensures TransposeBlocks(TransposeBlocks(T, n, m), m, n) == T
  {
    var U := TransposeBlocks(TransposeBlocks(T, n, m), m, n);
    forall i | 0 <= i < n
      ensures U[i] == T[i]
    {
      forall j | 0 <= j < m
        ensures U[i][j] == T[i][j]
      {
        TwoByTwo(T[i][j]);
      }
    }
  }

  /** The transposed payload of a matrix tensor. */
  function TransposePayload(p: Payload): (q: Payload)
    requires p.MatP? && p.WellFormed()
    ensures q.MatP? && q.WellFormed() && q.n == p.m && q.m == p.n && |q.blocks| == |p.blocks|
    ensures forall b | 0 <= b < |p.blocks| :: q.blocks[b] == TransposeBlocks(p.blocks[b], p.n, p.m)
  {
    MatP(p.m, p.n, seq(|p.blocks|, b requires 0 <= b < |p.blocks| => TransposeBlocks(p.blocks[b], p.n, p.m)))
  }

  lemma TransposePayloadInvolution(p: Payload)
    requires p.MatP? && p.WellFormed()
    ensures TransposePayload(TransposePayload(p)) == p
  {
    var q := TransposePayload(TransposePayload(p));
    forall b | 0 <= b < |p.blocks|
      ensures q.blocks[b] == p.blocks[b]
    {
      TransposeBlocksInvolution(p.blocks[b], p.n, p.m);
    }
  }

  /** One batch entry of a matrix tensor multiplied by `x`. */
  function ScaleBlocks(x: real, T: BlockMatrix, n: nat, m: nat): (U: BlockMatrix)
    requires IsBlockMatrix(T, n, m)
    ensures IsBlockMatrix(U, n, m)
    ensures forall i, j, s, t | 0 <= i < n && 0 <= j < m && 0 <= s < 2 && 0 <= t < 2 :: U[i][j][s][t] == x * T[i][j][s][t]
  {
    seq(n, i requires 0 <= i < n => seq(m, j requires 0 <= j < m =>
      [[x * T[i][j][0][0], x * T[i][j][0][1]], [x * T[i][j][1][0], x * T[i][j][1][1]]]))
  }

  /** One batch entry of a vector tensor multiplied by `x`. */
  function ScaleVector(x: real, V: BlockVector, n: nat): (W: BlockVector)
    requires IsBlockVector(V, n)
    ensures IsBlockVector(W, n)
    ensures forall i, s | 0 <= i < n && 0 <= s < 2 :: W[i][s] == x * V[i][s]
  {
    seq(n, i requires 0 <= i < n => [x * V[i][0], x * V[i][1]])
  }

  /** `x * tensor`. */
  function ScalePayload(x: real, p: Payload): (q: Payload)
    requires p.WellFormed()
    ensures q.WellFormed() && q.Shape() == p.Shape()
    ensures q.MatP? ==> forall b, i, j, s, t | 0 <= b < |p.blocks| && 0 <= i < p.n && 0 <= j < p.m && 0 <= s < 2 && 0 <= t < 2 ::
      q.blocks[b][i][j][s][t] == x * p.blocks[b][i][j][s][t]
    ensures q.VecP? ==> forall b, i, s | 0 <= b < |p.vecs| && 0 <= i < p.n && 0 <= s < 2 :: q.vecs[b][i][s] == x * p.vecs[b][i][s]
  {
    match p
    case MatP(n, m, bs) => MatP(n, m, seq(|bs|, b requires 0 <= b < |bs| => ScaleBlocks(x, bs[b], n, m)))
    case VecP(n, vs) => VecP(n, seq(|vs|, b requires 0 <= b < |vs| => ScaleVector(x, vs[b], n)))
  }

  /** Two batch entries of matrix tensors of one shape, added entrywise. */
  function AddBlocks(T: BlockMatrix, U: BlockMatrix, n: nat, m: nat): (W: BlockMatrix)
    requires IsBlockMatrix(T, n, m) && IsBlockMatrix(U, n, m)
    ensures IsBlockMatrix(W, n, m)
    ensures forall i, j, s, t | 0 <= i < n && 0 <= j < m && 0 <= s < 2 && 0 <= t < 2 :: W[i][j][s][t] == T[i][j][s][t] + U[i][j][s][t]
  {
    seq(n, i requires 0 <= i < n => seq(m, j requires 0 <= j < m =>
      [[T[i][j][0][0] + U[i][j][0][0], T[i][j][0][1] + U[i][j][0][1]],
       [T[i][j][1][0] + U[i][j][1][0], T[i][j][1][1] + U[i][j][1][1]]]))
  }

  /** Two batch entries of vector tensors of one shape, added entrywise. */
  function AddVectors(V: BlockVector, W: BlockVector, n: nat): (Z: BlockVector)
    requires IsBlockVector(V, n) && IsBlockVector(W, n)
    ensures IsBlockVector(Z, n)
    ensures forall i, s | 0 <= i < n && 0 <= s < 2 :: Z[i][s] == V[i][s] + W[i][s]
  {
    seq(n, i requires 0 <= i < n => [V[i][0] + W[i][0], V[i][1] + W[i][1]])
  }

  /** `self.tensor + other.tensor` for tensors of one shape; numpy rejects other shapes here with
    * ValueError (broadcasting of a batch of 1 is not modelled). */
  function AddPayload(p: Payload, q: Payload): (r: Result<Payload>)
    requires p.WellFormed() && q.WellFormed()
    ensures r.Ok? <==> p.Shape() == q.Shape()
    ensures r.Err? ==> r.error == ValueError
    ensures r.Ok? ==> r.value.WellFormed() && r.value.Shape() == p.Shape()
    ensures r.Ok? && p.MatP? ==> forall b, i, j, s, t | 0 <= b < |p.blocks| && 0 <= i < p.n && 0 <= j < p.m && 0 <= s < 2 && 0 <= t < 2 ::
      r.value.blocks[b][i][j][s][t] == p.blocks[b][i][j][s][t] + q.blocks[b][i][j][s][t]
    ensures r.Ok? && p.VecP? ==> forall b, i, s | 0 <= b < |p.vecs| && 0 <= i < p.n && 0 <= s < 2 ::
      r.value.vecs[b][i][s] == p.vecs[b][i][s] + q.vecs[b][i][s]
  {
    if p.Shape() != q.Shape() then Err(ValueError)
    else
      match p
      case MatP(n, m, bs) =>
        var cs := q.blocks;
        Ok(MatP(n, m, seq(|bs|, b requires 0 <= b < |bs| => AddBlocks(bs[b], cs[b], n, m))))
      case VecP(n, vs) =>
        var ws := q.vecs;
        Ok(VecP(n, seq(|vs|, b requires 0 <= b < |vs| => AddVectors(vs[b], ws[b], n))))
  }

  // ------------------------------------------------------------------------------------------
  // Mode lists of the sparse operations
  // ------------------------------------------------------------------------------------------

  /** The modes of one side that the other side does not contract: `[i for i in s if i not in
    * contracted]`, where `contracted` lists the shared modes. */
  lemma UncontractedElems(selfIn: seq<int>, otherOut: seq<int>)
    ensures var contracted := KeepIn(selfIn, otherOut);
      Elems(DropIn(selfIn, contracted)) == Elems(DropIn(selfIn, otherOut))
      && Elems(DropIn(otherOut, contracted)) == Elems(DropIn(otherOut, selfIn))
  {
  }

  lemma SortedElems(s: seq<int>)
    ensures forall x :: x in Sorted(s) <==> x in s
  {
    forall x
      ensures x in Sorted(s) <==> x in s
    {
      assert x in Sorted(s) <==> x in multiset(Sorted(s));
    }
  }

  /** The unsorted out- and in-mode lists of the mode-aware product, once the mode check passed. */
  function ProductModeLists(selfOut: seq<int>, selfIn: seq<int>, selfLike0: bool,
                            otherOut: seq<int>, otherIn: seq<int>, otherLike0: bool): (r: (seq<int>, seq<int>))
    ensures selfLike0 ==> forall x | x in r.0 :: x in selfOut
    ensures otherLike0 ==> forall x | x in r.1 :: x in otherIn
    ensures forall x | x in r.0 :: x in selfOut || (x in otherOut && x !in selfIn)
    ensures forall x | x in r.1 :: x in otherIn || (x in selfIn && x !in otherOut)
  {
    var contracted := KeepIn(selfIn, otherOut);
    var uSelf := DropIn(selfIn, contracted);
    var uOther := DropIn(otherOut, contracted);
    var out0 := if otherLike0 && |contracted| == 0 then uOther else selfOut + uOther;
    var out1 := if selfLike0 then KeepIn(out0, selfOut) else out0;
    var in0 := if selfLike0 && |contracted| == 0 then uSelf else uSelf + otherIn;
    var in1 := if otherLike0 then KeepIn(in0, otherIn) else in0;
    (out1, in1)
  }

  /** The mode lists `_mode_aware_matmul` returns for `self @ other`. Equal lists with equal batch
    * sizes multiply directly. Otherwise `contracted` is self's in-modes that other has as out-modes;
    * an uncontracted mode of one side that the other side also uses raises ValueError; a like_0
    * side keeps only its own modes (and drops the other's when nothing is contracted); the lists
    * come back sorted. */
  function ModeAwareModes(selfOut: seq<int>, selfIn: seq<int>, selfLike0: bool,
                          otherOut: seq<int>, otherIn: seq<int>, otherLike0: bool, sameBatch: bool): (r: Result<(seq<int>, seq<int>)>)
    ensures selfIn == otherOut && sameBatch ==> r == Ok((selfOut, otherIn))
    ensures !(selfIn == otherOut && sameBatch) ==>
      (r.Err? <==> Elems(selfOut) * Elems(DropIn(otherOut, selfIn)) != {} || Elems(otherIn) * Elems(DropIn(selfIn, otherOut)) != {})
    ensures r.Err? ==> r.error == ValueError
    ensures r.Ok? && !(selfIn == otherOut && sameBatch) ==> Ascending(r.value.0) && Ascending(r.value.1)
    ensures r.Ok? && selfLike0 ==> forall x | x in r.value.0 :: x in selfOut
    ensures r.Ok? && otherLike0 ==> forall x | x in r.value.1 :: x in otherIn
    ensures r.Ok? ==> forall x | x in r.value.0 :: x in selfOut || (x in otherOut && x !in selfIn)
    ensures r.Ok? ==> forall x | x in r.value.1 :: x in otherIn || (x in selfIn && x !in otherOut)
  {
    if selfIn == otherOut && sameBatch then Ok((selfOut, otherIn))
    else
      var contracted := KeepIn(selfIn, otherOut);
      var uSelf := DropIn(selfIn, contracted);
      var uOther := DropIn(otherOut, contracted);
      UncontractedElems(selfIn, otherOut);
      if !(Elems(selfOut) * Elems(uOther) == {} && Elems(otherIn) * Elems(uSelf) == {}) then Err(ValueError)
      else
        var lists := ProductModeLists(selfOut, selfIn, selfLike0, otherOut, otherIn, otherLike0);
        SortedElems(lists.0);
        SortedElems(lists.1);
        Ok((Sorted(lists.0), Sorted(lists.1)))
  }

  /** The reshapes of `_mode_aware_matmul` once some modes are contracted. Self's tensor gathered
    * at the c contracted in-modes has shape (b, rows, c, 2, 2) and must reshape to (b, 2N, 2N), N
    * being the number of self's out-modes; other's tensor gathered at the contracted out-modes has
    * shape (b', c, cols, 2, 2) for a matrix, which must reshape to (b, 2N, 2N) as well, or
    * (b', c, 2) for a vector, which must reshape to (b, 2N). A reshape to a different number of
    * entries raises ValueError. With nothing contracted nothing is reshaped. */
  function ContractedBlocksFit(selfOut: seq<int>, selfIn: seq<int>, selfBatch: nat, selfRows: nat,
                               otherOut: seq<int>, otherBatch: nat, otherCols: Option<nat>): (r: Outcome)
    ensures r.Fail? ==> r.error == ValueError
    ensures |KeepIn(selfIn, otherOut)| == 0 ==> r == Pass
  {
    var c := |KeepIn(selfIn, otherOut)|;
    var n := |selfOut|;
    if c == 0 then Pass
    else if selfBatch * selfRows * c != selfBatch * n * n then Fail(ValueError)
    else if otherCols.Some? && otherBatch * c * otherCols.value != selfBatch * n * n then Fail(ValueError)
    else if otherCols.None? && otherBatch * c != selfBatch * n then Fail(ValueError)
    else Pass
  }

  /** For non-empty tensors whose axes have the lengths of their mode lists and whose batch sizes
    * agree, the contracted blocks reshape exactly when the contraction takes as many modes as self
    * has out-modes and, for a matrix on the right, that matrix has as many in-modes too. */
  lemma ContractedBlocksFitExactly(selfOut: seq<int>, selfIn: seq<int>, b: nat,
                                                      otherOut: seq<int>, otherCols: Option<nat>)
    requires b >= 1 && |selfOut| >= 1 && |KeepIn(selfIn, otherOut)| >= 1
    ensures var c, n := |KeepIn(selfIn, otherOut)|, |selfOut|;
      var fit := ContractedBlocksFit(selfOut, selfIn, b, n, otherOut, b, otherCols);
      (otherCols.Some? ==> (fit == Pass <==> c == n && otherCols.value == n))
      && (otherCols.None? ==> (fit == Pass <==> c == n))
  {
    var c, n := |KeepIn(selfIn, otherOut)|, |selfOut|;
    CancelPositive(b * n, c, n);
    assert b * n * c == (b * n) * c && b * n * n == (b * n) * n;
    CancelPositive(b, c, n);
    if c == n && otherCols.Some? {
      var k := otherCols.value;
      assert b * c * k == (b * n) * k;
      CancelPositive(b * n, k, n);
    }
  }

  lemma CancelPositive(a: int, x: int, y: int)
    requires a >= 1
    ensures a * x == a * y <==> x == y
  {
    if x < y {
      MulPositive(a, y - x);
      assert a * y == a * x + a * (y - x);
    } else if y < x {
      MulPositive(a, x - y);
      assert a * x == a * y + a * (x - y);
    }
  }

  lemma MulPositive(a: int, d: int)
    requires a >= 1 && d >= 1
    ensures a * d >= 1
  {
    assert a * d == a * (d - 1) + a;
    assert a * (d - 1) >= 0;
  }

  /** One matrix on modes [0, 1] times one on modes [0, 1, 2]: the block of the second operand
    * holds 36 entries where 16 are needed, so the product raises. */
  lemma ContractedBlocksMismatch(b: nat)
    requires b >= 1
    ensures ContractedBlocksFit([0, 1], [0, 1], b, 2, [0, 1, 2], b, Some(3)) == Fail(ValueError)
  {
    assert KeepIn([0, 1], [0, 1, 2]) == [0, 1] by {
      assert [0, 1][..1] == [0];
      assert [0][..0] == [];
    }
    assert b * 2 * 3 != b * 2 * 2;
  }

  /** Whether `_mode_aware_matmul` assembles its result with `math.block` (lines 275-284) from
    * `copied_rows`, which is gathered from other's tensor and so has other's batch size, and a
    * block with self's batch size: `copied_cols` or the contracted `bulk`. `copied_rows` exists
    * when self is like_1 and other has an uncontracted out-mode, `copied_cols` when other is
    * like_1 and self has an uncontracted in-mode, `bulk` when some mode is contracted.
    * `math.block` concatenates along the mode axes, so the batch axes must agree. */
  predicate MixesBatches(selfIn: seq<int>, selfLike0: bool, otherOut: seq<int>, otherLike0: bool)
  {
    !selfLike0 && (exists o | o in otherOut :: o !in selfIn)
    && ((!otherLike0 && exists i | i in selfIn :: i !in otherOut) || exists i | i in selfIn :: i in otherOut)
  }

  /** How `_mode_aware_matmul` of the matrix `self` with `other` ends, as written; `fit` is the
    * outcome of `ContractedBlocksFit` for the two tensors. The direct branch (lines 248-251) and,
    * for a matrix `other`, the product of the contracted blocks (line 267) go through
    * `self.from_xxpp(...)`, which on an XPMatrix passes neither like flag on to `XPMatrix(...)`,
    * so lines 441-443 raise ValueError; only the vector product of line 270 goes through
    * `XPVector.from_xxpp`. A `math.block` of blocks with different batch sizes raises
    * ValueError too. What is left returns the mode lists of `ModeAwareModes`. */
  function ModeAwareMatmulAsWritten(selfOut: seq<int>, selfIn: seq<int>, selfLike0: bool,
                                    otherOut: seq<int>, otherIn: seq<int>, otherLike0: bool,
                                    otherIsMatrix: bool, sameBatch: bool, fit: Outcome): (r: Result<(seq<int>, seq<int>)>)
    ensures r.Err? ==> r.error == ValueError
    ensures selfIn == otherOut && sameBatch ==> r == Err(ValueError)
    ensures otherIsMatrix && |KeepIn(selfIn, otherOut)| > 0 ==> r == Err(ValueError)
    ensures !sameBatch && MixesBatches(selfIn, selfLike0, otherOut, otherLike0) ==> r == Err(ValueError)
    ensures r.Ok? <==> !(selfIn == otherOut && sameBatch) && fit == Pass
                       && ModeAwareModes(selfOut, selfIn, selfLike0, otherOut, otherIn, otherLike0, sameBatch).Ok?
                       && (otherIsMatrix ==> |KeepIn(selfIn, otherOut)| == 0)
                       && !(!sameBatch && MixesBatches(selfIn, selfLike0, otherOut, otherLike0))
    ensures r.Ok? ==> r == ModeAwareModes(selfOut, selfIn, selfLike0, otherOut, otherIn, otherLike0, sameBatch)
  {
    if selfIn == otherOut && sameBatch then Err(ValueError)
    else
      match ModeAwareModes(selfOut, selfIn, selfLike0, otherOut, otherIn, otherLike0, sameBatch)
      case Err(e) => Err(e)
      case Ok(ms) =>
        if fit.Fail? then Err(ValueError)
        else if otherIsMatrix && |KeepIn(selfIn, otherOut)| > 0 then Err(ValueError)
        else if !sameBatch && MixesBatches(selfIn, selfLike0, otherOut, otherLike0) then Err(ValueError)
        else Ok(ms)
  }

  /** The evidently intended `_mode_aware_matmul`: every product is built with self's like flags,
    * so the only failures are the collision of uncontracted modes, the reshape of the contracted
    * blocks and the assembly of blocks with different batch sizes, and the direct branch gives
    * (self.outmodes, other.inmodes). */
  function ModeAwareMatmul(selfOut: seq<int>, selfIn: seq<int>, selfLike0: bool,
                           otherOut: seq<int>, otherIn: seq<int>, otherLike0: bool,
                           sameBatch: bool, fit: Outcome): (r: Result<(seq<int>, seq<int>)>)
    ensures r.Err? ==> r.error == ValueError
    ensures selfIn == otherOut && sameBatch ==> r == Ok((selfOut, otherIn))
    ensures !(selfIn == otherOut && sameBatch) ==>
      (r.Err? <==> fit.Fail? || (!sameBatch && MixesBatches(selfIn, selfLike0, otherOut, otherLike0))
                   || Elems(selfOut) * Elems(DropIn(otherOut, selfIn)) != {}
                   || Elems(otherIn) * Elems(DropIn(selfIn, otherOut)) != {})
    ensures r.Ok? && !(selfIn == otherOut && sameBatch) ==> Ascending(r.value.0) && Ascending(r.value.1)
    ensures r.Ok? && selfLike0 ==> forall x | x in r.value.0 :: x in selfOut
    ensures r.Ok? && otherLike0 ==> forall x | x in r.value.1 :: x in otherIn
  {
    match ModeAwareModes(selfOut, selfIn, selfLike0, otherOut, otherIn, otherLike0, sameBatch)
    case Err(e) => Err(e)
    case Ok(ms) =>
      if !(selfIn == otherOut && sameBatch) && (fit.Fail? || (!sameBatch && MixesBatches(selfIn, selfLike0, otherOut, otherLike0)))
      then Err(ValueError)
      else Ok(ms)
  }

  /** The product as written succeeds only where the intended one does, with the same modes, and
    * fails where the intended one succeeds exactly in the direct branch and in a contracted
    * matrix-matrix product. */
  lemma ModeAwareMatmulAsWrittenDiffers(selfOut: seq<int>, selfIn: seq<int>, selfLike0: bool,
                                        otherOut: seq<int>, otherIn: seq<int>, otherLike0: bool,
                                        otherIsMatrix: bool, sameBatch: bool, fit: Outcome)
    ensures var w := ModeAwareMatmulAsWritten(selfOut, selfIn, selfLike0, otherOut, otherIn, otherLike0, otherIsMatrix, sameBatch, fit);
      var m := ModeAwareMatmul(selfOut, selfIn, selfLike0, otherOut, otherIn, otherLike0, sameBatch, fit);
      (w.Ok? ==> m == w)
      && (m.Ok? && w.Err? <==> m.Ok? && ((selfIn == otherOut && sameBatch) || (otherIsMatrix && |KeepIn(selfIn, otherOut)| > 0)))
  {
  }

  /** X @ X for a like_0 matrix X on mode 0 with one batch entry takes the direct branch: as
    * written it raises ValueError, where the intended product is X's own modes. */
  lemma SquareOfMatrixRaises()
    ensures ModeAwareMatmulAsWritten([0], [0], true, [0], [0], true, true, true, Pass) == Err(ValueError)
    ensures ModeAwareMatmul([0], [0], true, [0], [0], true, true, Pass) == Ok(([0], [0]))
  {
  }

  /** Two like_0 matrices on modes ([0, 1], [0, 1]) and ([1, 0], [1, 0]) with one batch size b,
    * whose axes have the lengths of their mode lists: the mode lists differ in order, so the
    * product contracts both modes, the blocks reshape, and still the product raises as written
    * at line 267, where the intended product has modes ([0, 1], [0, 1]). */
  lemma ContractedMatrixProductRaises(b: nat)
    ensures var fit := ContractedBlocksFit([0, 1], [0, 1], b, 2, [1, 0], b, Some(2));
      fit == Pass
      && ModeAwareMatmulAsWritten([0, 1], [0, 1], true, [1, 0], [1, 0], true, true, true, fit) == Err(ValueError)
      && ModeAwareMatmul([0, 1], [0, 1], true, [1, 0], [1, 0], true, true, fit) == Ok(([0, 1], [0, 1]))
  {
    assert KeepIn([0, 1], [1, 0]) == [0, 1] by {
      assert [0, 1][..1] == [0];
      assert [0][..0] == [];
    }
    assert b * 2 * 2 == b * 2 * 2;
    var fit := ContractedBlocksFit([0, 1], [0, 1], b, 2, [1, 0], b, Some(2));
    assert fit == Pass;
    ReorderedModesProduct();
  }

  /** The mode lists of ([0, 1], [0, 1]) @ ([1, 0], [1, 0]) for two like_0 matrices. */
  lemma ReorderedModesProduct()
    ensures ModeAwareModes([0, 1], [0, 1], true, [1, 0], [1, 0], true, true) == Ok(([0, 1], [0, 1]))
  {
    KeepDropPair(0, 1);
    KeepDropPair(1, 0);
    assert [0, 1] != [1, 0] by {
      assert [0, 1][0] != [1, 0][0];
    }
    assert Elems([0, 1]) * Elems<int>([]) == {} && Elems([1, 0]) * Elems<int>([]) == {};
    ReorderedModeLists();
    SortedPair(0, 1);
    SortedPair(1, 0);
  }

  lemma ReorderedModeLists()
    ensures ProductModeLists([0, 1], [0, 1], true, [1, 0], [1, 0], true) == ([0, 1], [1, 0])
  {
    KeepDropPair(0, 1);
    KeepDropPair(1, 0);
    assert [0, 1] + [] == [0, 1] && [] + [1, 0] == [1, 0];
  }

  /** Filtering [x, y] by its own entries or by [y, x]. */
  lemma KeepDropPair(x: int, y: int)
    requires x != y
    ensures KeepIn([x, y], [y, x]) == [x, y] && KeepIn([x, y], [x, y]) == [x, y]
    ensures DropIn([x, y], [x, y]) == [] && DropIn([x, y], [y, x]) == []
  {
    assert [x, y][..1] == [x];
    assert [x][..0] == [];
  }

  /** `sorted` of two entries. */
  lemma SortedPair(x: int, y: int)
    ensures Sorted([x, y]) == if x <= y then [x, y] else [y, x]
  {
    assert [x, y][..1] == [x];
    assert [x][..0] == [];
    assert Sorted([x]) == [x];
  }

  /** Two like_1 matrices on modes ([0], [0]) and ([1], [1]) with batch sizes 1 and 2 share no
    * mode: `copied_cols` and `copied_rows` are both built, and their batch axes do not match
    * in the `math.block` of line 279. */
  lemma UncontractedBatchMismatchRaises()
    ensures ModeAwareMatmulAsWritten([0], [0], false, [1], [1], false, true, false,
                                     ContractedBlocksFit([0], [0], 1, 1, [1], 2, Some(1))) == Err(ValueError)
  {
    assert 1 in [1] && 1 !in [0];
    assert 0 in [0] && 0 !in [1];
  }

  /** Whether two arrays of shapes (c, n, 2) and (c, n', 2) broadcast against each other. */
  predicate ModeAxesBroadcast(n: nat, n': nat)
  {
    n == n' || n == 1 || n' == 1
  }

  /** How `_mode_aware_vecvec` ends, as written. Matching modes and batch sizes multiply the two
    * tensors of shapes (b, n, 2) and (b, n', 2) directly (line 313). Otherwise line 315 indexes
    * each tensor's first axis, its batch axis, with the common modes, which is an IndexError for
    * a mode outside [-b, b) of that tensor's batch size b, and then multiplies two arrays of
    * shapes (c, n, 2) and (c, n', 2). Either product raises ValueError when the mode axes do
    * not broadcast. */
  function VecVecAsWritten(selfOut: seq<int>, otherOut: seq<int>, sameBatch: bool,
                           selfBatch: nat, otherBatch: nat, selfN: nat, otherN: nat): (r: Outcome)
    ensures selfOut == otherOut && sameBatch ==> (r == Pass <==> ModeAxesBroadcast(selfN, otherN))
    ensures !(selfOut == otherOut && sameBatch) ==>
      (r == Fail(IndexError) <==> exists x | x in selfOut && x in otherOut :: !(-(selfBatch as int) <= x < selfBatch) || !(-(otherBatch as int) <= x < otherBatch))
    ensures r.Fail? ==> r.error == IndexError || r.error == ValueError
    ensures r == Fail(ValueError) ==> !ModeAxesBroadcast(selfN, otherN)
    ensures ModeAxesBroadcast(selfN, otherN) && (forall x | x in selfOut && x in otherOut :: 0 <= x < selfBatch && x < otherBatch) ==> r == Pass
  {
    if selfOut == otherOut && sameBatch then
      if ModeAxesBroadcast(selfN, otherN) then Pass else Fail(ValueError)
    else if exists x | x in selfOut && x in otherOut :: !(-(selfBatch as int) <= x < selfBatch) || !(-(otherBatch as int) <= x < otherBatch) then Fail(IndexError)
    else if !ModeAxesBroadcast(selfN, otherN) then Fail(ValueError)
    else Pass
  }

  /** The outcome of the vector-vector product does not depend on the order of the operands. */
  lemma VecVecSymmetric(selfOut: seq<int>, otherOut: seq<int>, sameBatch: bool,
                        selfBatch: nat, otherBatch: nat, selfN: nat, otherN: nat)
    ensures VecVecAsWritten(selfOut, otherOut, sameBatch, selfBatch, otherBatch, selfN, otherN)
         == VecVecAsWritten(otherOut, selfOut, sameBatch, otherBatch, selfBatch, otherN, selfN)
  {
  }

  /** Two one-entry vectors on modes [0, 1] and [1] share mode 1, which is past the batch axis. */
  lemma VecVecIndexesBatchAxis()
    ensures VecVecAsWritten([0, 1], [1], true, 1, 1, 2, 1) == Fail(IndexError)
  {
    assert 1 in [0, 1] && 1 in [1];
  }

  /** Two vectors on mode [0] with one batch entry, whose mode axes have lengths 3 and 2, take the
    * direct branch and raise ValueError at line 313. */
  lemma VecVecDirectBroadcastFails()
    ensures VecVecAsWritten([0], [0], true, 1, 1, 3, 2) == Fail(ValueError)
  {
  }

  /** Which tensor `__add__` accumulates into when the modes differ. */
  datatype AddTarget = IntoSelf | IntoOther | IntoFresh

  /** The plan of `__add__` for unmatched modes: the result's modes are the sorted unions, and the
    * accumulation starts from self if it covers other's modes, else from other if it covers
    * self's, else from zeros. */
  function AddPlan(selfOut: seq<int>, selfIn: seq<int>, otherOut: seq<int>, otherIn: seq<int>): (r: (AddTarget, seq<int>, seq<int>))
    ensures r.1 == SortedUnion(selfOut, otherOut) && r.2 == SortedUnion(selfIn, otherIn)
    ensures r.0 == IntoSelf <==> Elems(otherOut) <= Elems(selfOut) && Elems(otherIn) <= Elems(selfIn)
    ensures r.0 == IntoOther ==> Elems(selfOut) <= Elems(otherOut) && Elems(selfIn) <= Elems(otherIn)
  {
    var selfContainsOther := Elems(otherOut) <= Elems(selfOut) && Elems(otherIn) <= Elems(selfIn);
    var otherContainsSelf := Elems(selfOut) <= Elems(otherOut) && Elems(selfIn) <= Elems(otherIn);
    var target := if selfContainsOther then IntoSelf else if otherContainsSelf then IntoOther else IntoFresh;
    (target, SortedUnion(selfOut, otherOut), SortedUnion(selfIn, otherIn))
  }

  /** The tensor `__add__` accumulates into already spans the result's modes: the union of the
    * modes is the target's own mode set. */
  lemma AddTargetSpansUnion(selfOut: seq<int>, selfIn: seq<int>, otherOut: seq<int>, otherIn: seq<int>)
    ensures var p := AddPlan(selfOut, selfIn, otherOut, otherIn);
      (p.0 == IntoSelf ==> Elems(p.1) == Elems(selfOut) && Elems(p.2) == Elems(selfIn))
      && (p.0 == IntoOther ==> Elems(p.1) == Elems(otherOut) && Elems(p.2) == Elems(otherIn))
      && (Elems(p.1) == Elems(selfOut) + Elems(otherOut) && Elems(p.2) == Elems(selfIn) + Elems(otherIn))
  {
  }

  // ------------------------------------------------------------------------------------------
  // The tensor objects
  // ------------------------------------------------------------------------------------------

  /** What `@` returns: one of the operands, a fresh null, a product with the given modes (its
    * entries are not modelled), or the scalar of a vector-vector product. */
  datatype MatmulOut =
    | Operand(obj: XPTensor)
    | NullMatrix(like1: bool)
    | NullVector
    | MatrixProduct(productLike1: bool, outmodes: seq<int>, inmodes: seq<int>)
    | VectorProduct(modes: seq<int>)
    | ScalarProduct

  /** What `+` returns: one of the operands or a fresh null. */
  datatype AddOut = Summand(obj: XPTensor) | NullSum(isMatrix: bool, like0: bool)

  /** An XPMatrix or XPVector. `tensor` is rebound in place by `x * self` and by `self + other`
    * with matching modes; the other fields are fixed at construction. */
  class XPTensor {
    var tensor: Option<Payload>
    const like0: bool
    const isVector: bool
    const outmodes: seq<int>
    const inmodes: seq<int>

    ghost predicate Valid()
      reads this
    {
      (tensor.Some? ==> tensor.value.WellFormed())
      && InitCheck(ShapeOf(tensor), like0, isVector, outmodes, inmodes) == Pass
    }

    constructor (t: Option<Payload>, h: Header, vector: bool)
      requires t.Some? ==> t.value.WellFormed()
      requires InitCheck(ShapeOf(t), h.like0, vector, h.outmodes, h.inmodes) == Pass
      ensures Valid() && tensor == t && isVector == vector
      ensures like0 == h.like0 && outmodes == h.outmodes && inmodes == h.inmodes
    {
      tensor := t;
      like0 := h.like0;
      isVector := vector;
      outmodes := h.outmodes;
      inmodes := h.inmodes;
    }

    function IsMatrix(): bool
      reads this
    {
      !isVector
    }

    function Like1(): bool
      reads this
    {
      !like0
    }

    /** `isCoherence`: a matrix whose out-mode list differs from its in-mode list. */
    function IsCoherence(): (r: bool)
      reads this
      ensures r ==> !isVector
      ensures !isVector && Valid() && Elems(outmodes) != Elems(inmodes) ==> r && Elems(outmodes) * Elems(inmodes) == {}
    {
      !isVector && outmodes != inmodes
    }

    function BatchSize(): Option<nat>
      reads this
    {
      if tensor.None? then None else Some(tensor.value.BatchSize())
    }

    /** `T`: a vector raises ValueError, a null returns itself, otherwise a new matrix with the
      * blocks transposed and the out- and in-modes swapped. */
    method T() returns (r: Result<XPTensor>)
      requires Valid()
      ensures isVector ==> r == Err(ValueError)
      ensures !isVector && tensor.None? ==> r == Ok(this)
      ensures !isVector && tensor.Some? ==> (r.Ok? && fresh(r.value) && r.value.Valid()
        && r.value.tensor == Some(TransposePayload(tensor.value)) && !r.value.isVector
        && r.value.like0 == like0 && r.value.outmodes == inmodes && r.value.inmodes == outmodes)
    {
      if isVector {
        return Err(ValueError);
      }
      if tensor.None? {
        return Ok(this);
      }
      var p := tensor.value;
      assert p.MatP?;
      var q := TransposePayload(p);
      assert |CoreShape(q.Shape())| == 2 && |CoreShape(p.Shape())| == 2;
      var x := new XPTensor(Some(q), Header(like0, inmodes, outmodes), false);
      r := Ok(x);
    }

    /** `other * self`: a like_1 null raises NotImplementedError, a like_0 null is returned as it
      * is, otherwise the tensor is scaled in place and self returned. */
    method ScalarMul(x: real) returns (r: Result<XPTensor>)
      requires Valid()
      modifies this
      ensures Valid()
      ensures old(tensor).None? && !like0 ==> r == Err(NotImplementedError) && tensor == old(tensor)
      ensures old(tensor).None? && like0 ==> r == Ok(this) && tensor == old(tensor)
      ensures old(tensor).Some? ==> r == Ok(this) && tensor == Some(ScalePayload(x, old(tensor).value))
    {
      if tensor.None? {
        if !like0 {
          return Err(NotImplementedError);
        }
        return Ok(this);
      }
      tensor := Some(ScalePayload(x, tensor.value));
      r := Ok(this);
    }

    /** `self @ other` up to the product's entries: the null cases, then the mode-aware product as
      * written (a vector on the left is multiplied through the transpose of the matrix on the
      * right), and for two vectors the index and broadcast checks of `_mode_aware_vecvec`. */
    method Matmul(other: XPTensor) returns (r: Result<MatmulOut>)
      requires Valid() && other.Valid()
      ensures tensor.None? && other.tensor.None? ==>
        r == Ok(if IsMatrix() && other.IsMatrix() then NullMatrix(Like1() && other.Like1()) else NullVector)
      ensures tensor.None? && other.tensor.Some? ==> r == Ok(Operand(if like0 then this else other))
      ensures tensor.Some? && other.tensor.None? ==> r == Ok(Operand(if other.like0 then other else this))
      ensures tensor.Some? && other.tensor.Some? && IsMatrix() && other.IsMatrix() ==>
        match ModeAwareMatmulAsWritten(outmodes, inmodes, like0, other.outmodes, other.inmodes, other.like0, true,
                                       BatchSize() == other.BatchSize(),
                                       ContractedBlocksFit(outmodes, inmodes, tensor.value.BatchSize(), tensor.value.n,
                                                           other.outmodes, other.tensor.value.BatchSize(), other.tensor.value.Cols()))
        case Err(e) => r == Err(e)
        case Ok(ms) => (r == if ModesCompatible(ms.0, ms.1) then Ok(MatrixProduct(Like1() && other.Like1(), ms.0, ms.1)) else Err(ValueError))
      ensures tensor.Some? && other.tensor.Some? && IsMatrix() && !other.IsMatrix() ==>
        match ModeAwareMatmulAsWritten(outmodes, inmodes, like0, other.outmodes, other.inmodes, other.like0, false,
                                       BatchSize() == other.BatchSize(),
                                       ContractedBlocksFit(outmodes, inmodes, tensor.value.BatchSize(), tensor.value.n,
                                                           other.outmodes, other.tensor.value.BatchSize(), None))
        case Err(e) => r == Err(e)
        case Ok(ms) => r == Ok(VectorProduct(ms.0))
      ensures tensor.Some? && other.tensor.Some? && !IsMatrix() && other.IsMatrix() ==>
        match ModeAwareMatmulAsWritten(other.inmodes, other.outmodes, other.like0, outmodes, inmodes, like0, false,
                                       BatchSize() == other.BatchSize(),
                                       ContractedBlocksFit(other.inmodes, other.outmodes, other.tensor.value.BatchSize(),
                                                           other.tensor.value.Cols().GetOr(0), outmodes, tensor.value.BatchSize(), None))
        case Err(e) => r == Err(e)
        case Ok(ms) => r == Ok(VectorProduct(ms.0))
      ensures tensor.Some? && other.tensor.Some? && !IsMatrix() && !other.IsMatrix() ==>
        match VecVecAsWritten(outmodes, other.outmodes, BatchSize() == other.BatchSize(), tensor.value.BatchSize(),
                              other.tensor.value.BatchSize(), tensor.value.n, other.tensor.value.n)
        case Fail(e) => r == Err(e)
        case Pass => r == Ok(ScalarProduct)
    {
      if tensor.None? && other.tensor.None? {
        if IsMatrix() && other.IsMatrix() {
          return Ok(NullMatrix(Like1() && other.Like1()));
        }
        return Ok(NullVector);
      }
      if tensor.None? {
        return Ok(Operand(if like0 then this else other));
      }
      if other.tensor.None? {
        return Ok(Operand(if other.like0 then other else this));
      }
      var sameBatch := BatchSize() == other.BatchSize();
      if IsMatrix() && other.IsMatrix() {
        var fit := ContractedBlocksFit(outmodes, inmodes, tensor.value.BatchSize(), tensor.value.n,
                                       other.outmodes, other.tensor.value.BatchSize(), other.tensor.value.Cols());
        var ms := ModeAwareMatmulAsWritten(outmodes, inmodes, like0, other.outmodes, other.inmodes, other.like0, true, sameBatch, fit);
        if ms.Err? {
          return Err(ms.error);
        }
        if !ModesCompatible(ms.value.0, ms.value.1) {
          return Err(ValueError);
        }
        return Ok(MatrixProduct(Like1() && other.Like1(), ms.value.0, ms.value.1));
      } else if IsMatrix() {
        var fit := ContractedBlocksFit(outmodes, inmodes, tensor.value.BatchSize(), tensor.value.n,
                                       other.outmodes, other.tensor.value.BatchSize(), None);
        var ms := ModeAwareMatmulAsWritten(outmodes, inmodes, like0, other.outmodes, other.inmodes, other.like0, false, sameBatch, fit);
        if ms.Err? {
          return Err(ms.error);
        }
        return Ok(VectorProduct(ms.value.0));
      } else if other.IsMatrix() {
        var fit := ContractedBlocksFit(other.inmodes, other.outmodes, other.tensor.value.BatchSize(),
                                       other.tensor.value.Cols().GetOr(0), outmodes, tensor.value.BatchSize(), None);
        var ms := ModeAwareMatmulAsWritten(other.inmodes, other.outmodes, other.like0, outmodes, inmodes, like0, false, sameBatch, fit);
        if ms.Err? {
          return Err(ms.error);
        }
        return Ok(VectorProduct(ms.value.0));
      }
      var vv := VecVecAsWritten(outmodes, other.outmodes, sameBatch, tensor.value.BatchSize(),
                                other.tensor.value.BatchSize(), tensor.value.n, other.tensor.value.n);
      if vv.Fail? {
        return Err(vv.error);
      }
      r := Ok(ScalarProduct);
    }

    /** `self + other`: the vector/matrix and coherence checks, the null cases (a like_1 null
      * operand raises NameError, since the comprehension at line 338 reads `m` before binding
      * it), in-place addition for matching modes, and AttributeError for unmatched modes, since
      * the accumulation reads `self.batch`, which no XPTensor has. */
    method Add(other: XPTensor) returns (r: Result<AddOut>)
      requires Valid() && other.Valid()
      modifies this
      ensures Valid()
      ensures isVector != other.isVector ==> r == Err(ValueError) && tensor == old(tensor)
      ensures isVector == other.isVector && IsCoherence() != other.IsCoherence() ==> r == Err(ValueError) && tensor == old(tensor)
      ensures isVector == other.isVector && IsCoherence() == other.IsCoherence() ==>
        if old(tensor).None? && old(other.tensor).None? then
          tensor == old(tensor) &&
          r == if Like1() && other.Like1() then Err(ValueError)
               else if IsMatrix() then Ok(NullSum(true, like0 && other.like0)) else Ok(NullSum(false, true))
        else if old(tensor).None? then tensor == old(tensor) && r == if like0 then Ok(Summand(other)) else Err(NameError)
        else if old(other.tensor).None? then tensor == old(tensor) && r == if other.like0 then Ok(Summand(this)) else Err(NameError)
        else if outmodes == other.outmodes && inmodes == other.inmodes then
          match AddPayload(old(tensor).value, old(other.tensor).value)
          case Ok(q) => r == Ok(Summand(this)) && tensor == Some(q)
          case Err(e) => r == Err(e) && tensor == old(tensor)
        else
          tensor == old(tensor) && r == if Like1() && other.Like1() then Err(ValueError) else Err(AttributeError)
    {
      if isVector != other.isVector {
        return Err(ValueError);
      }
      if IsCoherence() != other.IsCoherence() {
        return Err(ValueError);
      }
      if tensor.None? && other.tensor.None? {
        if Like1() && other.Like1() {
          return Err(ValueError);
        }
        if IsMatrix() {
          return Ok(NullSum(true, like0 && other.like0));
        }
        return Ok(NullSum(false, true));
      }
      if tensor.None? {
        return if like0 then Ok(Summand(other)) else Err(NameError);
      }
      if other.tensor.None? {
        return if other.like0 then Ok(Summand(this)) else Err(NameError);
      }
      if outmodes == other.outmodes && inmodes == other.inmodes {
        var sum := AddPayload(tensor.value, other.tensor.value);
        if sum.Err? {
          return Err(sum.error);
        }
        tensor := Some(sum.value);
        return Ok(Summand(this));
      }
      if Like1() && other.Like1() {
        return Err(ValueError);
      }
      r := Err(AttributeError);
    }
  }

  /** `XPMatrix(tensor, like_0, like_1, modes)`: the checks of both constructors, then a new
    * object with the resolved flags and modes. */
  method NewMatrix(t: Option<Payload>, like0: Option<bool>, like1: Option<bool>, modes: ModesArg) returns (r: Result<XPTensor>)
    requires t.Some? ==> t.value.WellFormed()
    ensures r.Err? <==> MatrixInit(ShapeOf(t), like0, like1, modes).Err?
    ensures r.Err? ==> r.error == MatrixInit(ShapeOf(t), like0, like1, modes).error
    ensures r.Ok? ==> (fresh(r.value) && r.value.Valid() && r.value.tensor == t && !r.value.isVector
      && Header(r.value.like0, r.value.outmodes, r.value.inmodes) == MatrixInit(ShapeOf(t), like0, like1, modes).value)
  {
    var h := MatrixInit(ShapeOf(t), like0, like1, modes);
    if h.Err? {
      return Err(h.error);
    }
    var x := new XPTensor(t, h.value, false);
    r := Ok(x);
  }

  /** `XPVector(tensor, modes)`. */
  method NewVector(t: Option<Payload>, arg: VectorModesArg) returns (r: Result<XPTensor>)
    requires t.Some? ==> t.value.WellFormed()
    ensures r.Err? <==> VectorInit(ShapeOf(t), arg).Err?
    ensures r.Err? ==> r.error == VectorInit(ShapeOf(t), arg).error
    ensures r.Ok? ==> (fresh(r.value) && r.value.Valid() && r.value.tensor == t && r.value.isVector
      && Header(r.value.like0, r.value.outmodes, r.value.inmodes) == VectorInit(ShapeOf(t), arg).value)
  {
    var h := VectorInit(ShapeOf(t), arg);
    if h.Err? {
      return Err(h.error);
    }
    var x := new XPTensor(t, h.value, true);
    r := Ok(x);
  }
}
