/** Exact real vectors and matrices, and batches of them, as nested sequences: the element-level
  * operations the Bargmann data algebra is built from (numpy's `+`, `*`, `block_diag`, `concat`,
  * `matvec`, `gather`). */
module LinAlg {
  import Dense

  type Vector = seq<real>
  type Matrix = seq<seq<real>>

  /** An n x n matrix. */
  predicate IsSquare(A: Matrix, n: nat)
  {
    |A| == n && forall r | 0 <= r < n :: |A[r]| == n
  }

  /** The matrix size `A.shape[-1]` of a square matrix. */
  function Size(A: Matrix): nat
  {
    |A|
  }

  predicate SameShape(A: Matrix, B: Matrix)
  {
    |A| == |B| && forall r | 0 <= r < |A| :: |A[r]| == |B[r]|
  }

  function ZeroVector(n: nat): (r: Vector)
    ensures |r| == n && forall k | 0 <= k < n :: r[k] == 0.0
  {
    seq(n, _ => 0.0)
  }

  function SumR(s: seq<real>): real
  {
    if |s| == 0 then 0.0 else SumR(s[..|s| - 1]) + s[|s| - 1]
  }

  /** `math.sum(u * v)`. */
  function Dot(u: Vector, v: Vector): real
    requires |u| == |v|
  {
    if |u| == 0 then 0.0 else Dot(u[..|u| - 1], v[..|v| - 1]) + u[|u| - 1] * v[|v| - 1]
  }

  lemma {:induction false} DotZero(u: Vector, v: Vector)
    requires |u| == |v| && forall k | 0 <= k < |u| :: u[k] == 0.0
    ensures Dot(u, v) == 0.0
  {
    if |u| > 0 {
      DotZero(u[..|u| - 1], v[..|v| - 1]);
    }
  }

  /** `math.matvec(A, x)`. */
  function Apply(A: Matrix, x: Vector): (r: Vector)
    requires forall k | 0 <= k < |A| :: |A[k]| == |x|
    ensures |r| == |A| && forall k | 0 <= k < |A| :: r[k] == Dot(A[k], x)
  {
    seq(|A|, k requires 0 <= k < |A| => Dot(A[k], x))
  }

  /** Entry (k, l) of A, 0 outside it. */
  function Entry(A: Matrix, k: int, l: int): real
  {
    if 0 <= k < |A| && 0 <= l < |A[k]| then A[k][l] else 0.0
  }

  /** numpy's `u + v` on vectors of one length. */
  function VecAdd(u: Vector, v: Vector): (r: Vector)
    ensures |r| == |u|
    ensures |u| == |v| ==> forall k | 0 <= k < |u| :: r[k] == u[k] + v[k]
  {
    seq(|u|, k requires 0 <= k < |u| => u[k] + (if k < |v| then v[k] else 0.0))
  }

  /** numpy's `A + B` on matrices of one shape. */
  function MatAdd(A: Matrix, B: Matrix): (r: Matrix)
    ensures SameShape(r, A)
    ensures SameShape(A, B) ==> forall k, l | 0 <= k < |A| && 0 <= l < |A[k]| :: r[k][l] == A[k][l] + B[k][l]
  {
    seq(|A|, k requires 0 <= k < |A| => seq(|A[k]|, l requires 0 <= l < |A[k]| => A[k][l] + Entry(B, k, l)))
  }

  /** `math.block_diag(A, B)`: A in the top-left block, B in the bottom-right, zeros elsewhere. */
  function BlockDiag(A: Matrix, B: Matrix): (r: Matrix)
    ensures IsSquare(r, |A| + |B|)
  {
    var n := |A|;
    var m := |B|;
    seq(n + m, k requires 0 <= k < n + m =>
      seq(n + m, l requires 0 <= l < n + m =>
        if k < n && l < n then Entry(A, k, l) else if k >= n && l >= n then Entry(B, k - n, l - n) else 0.0))
  }

  /** The two diagonal blocks of a block-diagonal matrix are its arguments and the off-diagonal
    * blocks are zero. */
  lemma BlockDiagBlocks(A: Matrix, B: Matrix)
    requires IsSquare(A, |A|) && IsSquare(B, |B|)
    ensures forall k, l | 0 <= k < |A| && 0 <= l < |A| :: BlockDiag(A, B)[k][l] == A[k][l]
    ensures forall k, l | 0 <= k < |B| && 0 <= l < |B| :: BlockDiag(A, B)[|A| + k][|A| + l] == B[k][l]
    ensures forall k, l | 0 <= k < |A| && |A| <= l < |A| + |B| :: BlockDiag(A, B)[k][l] == 0.0 && BlockDiag(A, B)[l][k] == 0.0
  {
    var r := BlockDiag(A, B);
    forall k, l | 0 <= k < |B| && 0 <= l < |B|
      ensures r[|A| + k][|A| + l] == B[k][l]
    {
      assert |A| + k - |A| == k && |A| + l - |A| == l;
      assert Entry(B, k, l) == B[k][l];
    }
    forall k, l | 0 <= k < |A| && |A| <= l < |A| + |B|
      ensures r[k][l] == 0.0 && r[l][k] == 0.0
    {
      assert !(k >= |A|) && !(l < |A|);
    }
  }

  /** Position k of an |s| x |t| outer product in `for x in s for y in t` order is (k / |t|, k % |t|). */
  lemma OuterPosition(k: nat, n: nat, m: nat)
    requires k < n * m
    ensures m > 0 && 0 <= k / m < n && 0 <= k % m < m
  {
    Dense.DivBound(k, n, m);
  }

  /** Conversely position i * |t| + j holds the pair (i, j). */
  lemma OuterIndex(i: nat, j: nat, n: nat, m: nat)
    requires i < n && j < m
    ensures i * m + j < n * m && (i * m + j) / m == i && (i * m + j) % m == j
  {
    Dense.MulMonotone(i, n, m);
    Dense.DivModUnique(i * m + j, m, i, j);
  }

  /** `math.gather(v, idx)`: the entries of v at the positions idx, in that order. */
  function Gather(v: Vector, idx: seq<int>): (r: Vector)
    requires forall k | 0 <= k < |idx| :: 0 <= idx[k] < |v|
    ensures |r| == |idx| && forall k | 0 <= k < |idx| :: r[k] == v[idx[k]]
  {
    seq(|idx|, k requires 0 <= k < |idx| => v[idx[k]])
  }

  /** Rows and then columns of a square matrix gathered at idx. */
  function Gather2(A: Matrix, idx: seq<int>): (r: Matrix)
    requires IsSquare(A, |A|) && forall k | 0 <= k < |idx| :: 0 <= idx[k] < |A|
    ensures IsSquare(r, |idx|) && forall k, l | 0 <= k < |idx| && 0 <= l < |idx| :: r[k][l] == A[idx[k]][idx[l]]
  {
    seq(|idx|, k requires 0 <= k < |idx| => Gather(A[idx[k]], idx))
  }

  /** `gather(gather(A, cols, axis=1), rows, axis=0)`: the block of A at the given rows and columns. */
  function GatherBlock(A: Matrix, rows: seq<int>, cols: seq<int>): (r: Matrix)
    requires IsSquare(A, |A|)
    requires forall k | 0 <= k < |rows| :: 0 <= rows[k] < |A|
    requires forall k | 0 <= k < |cols| :: 0 <= cols[k] < |A|
    ensures |r| == |rows| && forall k | 0 <= k < |rows| :: |r[k]| == |cols|
    ensures forall k, l | 0 <= k < |rows| && 0 <= l < |cols| :: r[k][l] == A[rows[k]][cols[l]]
  {
    seq(|rows|, k requires 0 <= k < |rows| => Gather(A[rows[k]], cols))
  }
}
