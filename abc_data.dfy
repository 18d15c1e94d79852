/** `ABCData` (mrmustard/lab/representations/data/abc_data.py): a batch of Bargmann triples
  * (A, b, c) standing for the functions c * exp(x^T A x / 2 + x^T b), stored as the mat, vec and
  * coeffs of a `MatVec`. The products are functions on values; the contraction indices set by
  * `obj[idx]` are a field of a class, and `@` and `value` are loop methods. */
module ABCData {
  import opened Wrappers
  import opened Seqs
  import opened LinAlg
  import opened MatVecData

  /** Every matrix of the batch is n x n and every vector has length n. */
  predicate Uniform(X: MatVec, n: nat)
  {
    (forall k | 0 <= k < |X.mat| :: IsSquare(X.mat[k], n)) && (forall k | 0 <= k < |X.vec| :: |X.vec[k]| == n)
  }

  /** `dim`, the size of the last axis of A (0 for an empty batch). */
  function Dim(X: MatVec): nat
  {
    if |X.mat| > 0 then |X.mat[0]| else 0
  }

  lemma UniformDim(X: MatVec, n: nat)
    requires Uniform(X, n) && |X.mat| > 0
    ensures Dim(X) == n
  {
  }

  // ---------------------------------------------------------------------------------------------
  // Batched products
  // ---------------------------------------------------------------------------------------------

  /** The position i * m + j of an n x m outer product. */
  function Pos(i: nat, j: nat, m: nat): nat
  {
    i * m + j
  }

  /** How the positions of an n x m outer product split into the first n - 1 rows and the last
    * row. */
  lemma OuterRows(n: nat, m: nat)
    requires n > 0
    ensures (n - 1) * m + m == n * m
    ensures forall i, j | 0 <= i < n - 1 && 0 <= j < m :: Pos(i, j, m) < (n - 1) * m
    ensures forall i, j | i == n - 1 && 0 <= j < m :: Pos(i, j, m) == (n - 1) * m + j
  {
    forall i, j | 0 <= i < n - 1 && 0 <= j < m
      ensures Pos(i, j, m) < (n - 1) * m
    {
      Dense.MulMonotone(i, n - 1, m);
    }
  }

  /** The rows of an outer product laid end to end: entry j of row i lands at i * m + j. */
  function Flatten<T>(rows: seq<seq<T>>, m: nat): (r: seq<T>)
    requires forall i | 0 <= i < |rows| :: |rows[i]| == m
    ensures |r| == |rows| * m
    ensures forall i, j | 0 <= i < |rows| && 0 <= j < m :: Pos(i, j, m) < |r| && r[Pos(i, j, m)] == rows[i][j]
  {
    if |rows| == 0 then []
    else
      var prev := Flatten(rows[..|rows| - 1], m);
      OuterRows(|rows|, m);
      prev + rows[|rows| - 1]
  }

  /** Entry k of the flattened rows is entry k % m of row k / m. */
  lemma FlattenAt<T>(rows: seq<seq<T>>, m: nat, k: nat)
    requires forall i | 0 <= i < |rows| :: |rows[i]| == m
    requires k < |rows| * m
    ensures 0 <= k / m < |rows| && 0 <= k % m < m && Flatten(rows, m)[k] == rows[k / m][k % m]
  {
    Dense.DivBound(k, |rows|, m);
    assert Pos(k / m, k % m, m) == k;
  }

  /** `[x * c for c in t]`. */
  function Scaled(x: real, t: seq<real>): (r: seq<real>)
    ensures |r| == |t| && forall j | 0 <= j < |t| :: r[j] == x * t[j]
  {
    seq(|t|, j requires 0 <= j < |t| => x * t[j])
  }

  /** `[c1 * c2 for c1 in s for c2 in t]`. */
  function OuterCoeffs(s: seq<real>, t: seq<real>): (r: seq<real>)
    ensures |r| == |s| * |t|
    ensures forall i, j | 0 <= i < |s| && 0 <= j < |t| :: Pos(i, j, |t|) < |r| && r[Pos(i, j, |t|)] == s[i] * t[j]
  {
    Flatten(seq(|s|, i requires 0 <= i < |s| => Scaled(s[i], t)), |t|)
  }

  /** `[block_diag(a, a2) for a2 in t]`. */
  function BlockDiags(a: Matrix, n: nat, t: seq<Matrix>, m: nat): (r: seq<Matrix>)
    requires |a| == n && forall k | 0 <= k < |t| :: |t[k]| == m
    ensures |r| == |t| && forall j | 0 <= j < |t| :: r[j] == BlockDiag(a, t[j]) && IsSquare(r[j], n + m)
  {
    seq(|t|, j requires 0 <= j < |t| => BlockDiag(a, t[j]))
  }

  /** `[block_diag(a1, a2) for a1 in s for a2 in t]`. */
  function OuterBlockDiag(s: seq<Matrix>, n: nat, t: seq<Matrix>, m: nat): (r: seq<Matrix>)
    requires forall k | 0 <= k < |s| :: |s[k]| == n
    requires forall k | 0 <= k < |t| :: |t[k]| == m
    ensures |r| == |s| * |t| && forall k | 0 <= k < |r| :: IsSquare(r[k], n + m)
    ensures forall i, j | 0 <= i < |s| && 0 <= j < |t| :: Pos(i, j, |t|) < |r| && r[Pos(i, j, |t|)] == BlockDiag(s[i], t[j])
  {
    var rows := seq(|s|, i requires 0 <= i < |s| => BlockDiags(s[i], n, t, m));
    var r := Flatten(rows, |t|);
    assert forall k | 0 <= k < |r| :: IsSquare(r[k], n + m) by {
      forall k | 0 <= k < |r|
        ensures IsSquare(r[k], n + m)
      {
        FlattenAt(rows, |t|, k);
      }
    }
    r
  }

  /** `[concat([u, b2], axis=-1) for b2 in t]`. */
  function Concats(u: Vector, t: seq<Vector>): (r: seq<Vector>)
    ensures |r| == |t| && forall j | 0 <= j < |t| :: r[j] == u + t[j]
  {
    seq(|t|, j requires 0 <= j < |t| => u + t[j])
  }

  /** `[concat([b1, b2], axis=-1) for b1 in s for b2 in t]`. */
  function OuterConcat(s: seq<Vector>, n: nat, t: seq<Vector>, m: nat): (r: seq<Vector>)
    requires forall k | 0 <= k < |s| :: |s[k]| == n
    requires forall k | 0 <= k < |t| :: |t[k]| == m
    ensures |r| == |s| * |t| && forall k | 0 <= k < |r| :: |r[k]| == n + m
    ensures forall i, j | 0 <= i < |s| && 0 <= j < |t| :: Pos(i, j, |t|) < |r| && r[Pos(i, j, |t|)] == s[i] + t[j]
  {
    var rows := seq(|s|, i requires 0 <= i < |s| => Concats(s[i], t));
    var r := Flatten(rows, |t|);
    assert forall k | 0 <= k < |r| :: |r[k]| == n + m by {
      forall k | 0 <= k < |r|
        ensures |r[k]| == n + m
      {
        FlattenAt(rows, |t|, k);
      }
    }
    r
  }

  /** `[A + A2 for A2 in t]`. */
  function MatAdds(A: Matrix, t: seq<Matrix>): (r: seq<Matrix>)
    ensures |r| == |t| && forall j | 0 <= j < |t| :: r[j] == MatAdd(A, t[j])
  {
    seq(|t|, j requires 0 <= j < |t| => MatAdd(A, t[j]))
  }

  /** `[A1 + A2 for A1, A2 in product(s, t)]`. */
  function OuterMatAdd(s: seq<Matrix>, t: seq<Matrix>): (r: seq<Matrix>)
    ensures |r| == |s| * |t|
    ensures forall i, j | 0 <= i < |s| && 0 <= j < |t| :: Pos(i, j, |t|) < |r| && r[Pos(i, j, |t|)] == MatAdd(s[i], t[j])
  {
    Flatten(seq(|s|, i requires 0 <= i < |s| => MatAdds(s[i], t)), |t|)
  }

  /** `[u + b2 for b2 in t]`. */
  function VecAdds(u: Vector, t: seq<Vector>): (r: seq<Vector>)
    ensures |r| == |t| && forall j | 0 <= j < |t| :: r[j] == VecAdd(u, t[j])
  {
    seq(|t|, j requires 0 <= j < |t| => VecAdd(u, t[j]))
  }

  /** `[b1 + b2 for b1, b2 in product(s, t)]`. */
  function OuterVecAdd(s: seq<Vector>, t: seq<Vector>): (r: seq<Vector>)
    ensures |r| == |s| * |t|
    ensures forall i, j | 0 <= i < |s| && 0 <= j < |t| :: Pos(i, j, |t|) < |r| && r[Pos(i, j, |t|)] == VecAdd(s[i], t[j])
  {
    Flatten(seq(|s|, i requires 0 <= i < |s| => VecAdds(s[i], t)), |t|)
  }

  /** `X & Y`: the tensor product. Entry i * |Y| + j has A = block_diag(A_i, A'_j),
    * b = concat(b_i, b'_j) and c = c_i * c'_j, so the dimensions add. */
  function And(X: MatVec, n: nat, Y: MatVec, m: nat): (r: MatVec)
    requires Uniform(X, n) && Uniform(Y, m)
    ensures Uniform(r, n + m)
    ensures |r.mat| == |X.mat| * |Y.mat| && |r.vec| == |X.vec| * |Y.vec| && |r.coeffs| == |X.coeffs| * |Y.coeffs|
    ensures forall i, j | 0 <= i < |X.mat| && 0 <= j < |Y.mat| :: Pos(i, j, |Y.mat|) < |r.mat| && r.mat[Pos(i, j, |Y.mat|)] == BlockDiag(X.mat[i], Y.mat[j])
    ensures forall i, j | 0 <= i < |X.vec| && 0 <= j < |Y.vec| :: Pos(i, j, |Y.vec|) < |r.vec| && r.vec[Pos(i, j, |Y.vec|)] == X.vec[i] + Y.vec[j]
    ensures forall i, j | 0 <= i < |X.coeffs| && 0 <= j < |Y.coeffs| :: Pos(i, j, |Y.coeffs|) < |r.coeffs| && r.coeffs[Pos(i, j, |Y.coeffs|)] == X.coeffs[i] * Y.coeffs[j]
  {
    MatVec(OuterBlockDiag(X.mat, n, Y.mat, m), OuterConcat(X.vec, n, Y.vec, m), OuterCoeffs(X.coeffs, Y.coeffs))
  }

  /** The tensor product of two batches with one vector per matrix has one vector per matrix. */
  lemma AndBatches(X: MatVec, n: nat, Y: MatVec, m: nat)
    requires Uniform(X, n) && Uniform(Y, m) && |X.mat| == |X.vec| && |Y.mat| == |Y.vec|
    ensures |And(X, n, Y, m).mat| == |And(X, n, Y, m).vec|
  {
    var r := And(X, n, Y, m);
    assert |r.mat| == |X.mat| * |Y.mat| && |r.vec| == |X.vec| * |Y.vec|;
  }

  /** The right operand of `*`. */
  datatype Factor = ByData(data: MatVec) | ByScalar(x: real) | ByOther

  /** `c * data` for a scalar c: A and b untouched, every coefficient scaled. */
  function Scale(X: MatVec, x: real): (r: MatVec)
    ensures r.mat == X.mat && r.vec == X.vec && |r.coeffs| == |X.coeffs|
    ensures forall k | 0 <= k < |X.coeffs| :: r.coeffs[k] == x * X.coeffs[k]
  {
    MatVec(X.mat, X.vec, seq(|X.coeffs|, k requires 0 <= k < |X.coeffs| => x * X.coeffs[k]))
  }

  /** `X * Y` for two ABCData: the pairs in itertools.product order (self outer) with A1 + A2,
    * b1 + b2 and c1 * c2. */
  function Product(X: MatVec, Y: MatVec): (r: MatVec)
    ensures |r.mat| == |X.mat| * |Y.mat| && |r.vec| == |X.vec| * |Y.vec| && |r.coeffs| == |X.coeffs| * |Y.coeffs|
    ensures forall i, j | 0 <= i < |X.mat| && 0 <= j < |Y.mat| :: Pos(i, j, |Y.mat|) < |r.mat| && r.mat[Pos(i, j, |Y.mat|)] == MatAdd(X.mat[i], Y.mat[j])
    ensures forall i, j | 0 <= i < |X.vec| && 0 <= j < |Y.vec| :: Pos(i, j, |Y.vec|) < |r.vec| && r.vec[Pos(i, j, |Y.vec|)] == VecAdd(X.vec[i], Y.vec[j])
    ensures r.coeffs == OuterCoeffs(X.coeffs, Y.coeffs)
  {
    MatVec(OuterMatAdd(X.mat, Y.mat), OuterVecAdd(X.vec, Y.vec), OuterCoeffs(X.coeffs, Y.coeffs))
  }

  /** `X * other`: another ABCData gives the `Product`, a scalar scales the coefficients, and
    * anything else raises TypeError. */
  function Mul(X: MatVec, other: Factor): (r: Result<MatVec>)
    ensures other.ByOther? <==> r.Err?
    ensures r.Err? ==> r.error == TypeError
    ensures other.ByScalar? ==> r == Ok(Scale(X, other.x))
    ensures other.ByData? ==> r == Ok(Product(X, other.data))
  {
    match other
    case ByData(Y) => Ok(Product(X, Y))
    case ByScalar(x) => Ok(Scale(X, x))
    case ByOther => Err(TypeError)
  }

  /** Scaling undoes division: (data / x) * x == data. */
  lemma ScaleUndoesTrueDiv(X: MatVec, x: real)
    requires x != 0.0
    ensures Scale(TrueDiv(X, x), x) == X
  {
    var l := Scale(TrueDiv(X, x), x).coeffs;
    forall k | 0 <= k < |X.coeffs|
      ensures l[k] == X.coeffs[k]
    {
      assert TrueDiv(X, x).coeffs[k] * x == X.coeffs[k];
    }
  }

  /** Scaling by -1 is negation. */
  lemma ScaleMinusOneIsNeg(X: MatVec)
    ensures Scale(X, -1.0) == Neg(X)
  {
    var l := Scale(X, -1.0).coeffs;
    var r := Neg(X).coeffs;
    forall k | 0 <= k < |X.coeffs|
      ensures l[k] == r[k]
    {
      assert r[k] + X.coeffs[k] == 0.0;
    }
  }

  // ---------------------------------------------------------------------------------------------
  // value(x)
  // ---------------------------------------------------------------------------------------------

  /** The exponent x^T A x / 2 + x^T b of one triple at x. */
  function Exponent(A: Matrix, b: Vector, x: Vector): real
    requires IsSquare(A, |x|) && |b| == |x|
  {
    0.5 * Dot(x, Apply(A, x)) + Dot(x, b)
  }

  /** The batch size `zip` sees: the shortest of A, b, c. */
  function ZipLength(X: MatVec): nat
  {
    var l := if |X.mat| < |X.vec| then |X.mat| else |X.vec|;
    if l < |X.coeffs| then l else |X.coeffs|
  }

  /** The sum of the first k terms exp(exponent_i) * c_i. */
  function PartialValue(X: MatVec, x: Vector, exp: real -> real, k: nat): real
    requires k <= ZipLength(X) && Uniform(X, |x|)
  {
    if k == 0 then 0.0
    else PartialValue(X, x, exp, k - 1) + exp(Exponent(X.mat[k - 1], X.vec[k - 1], x)) * X.coeffs[k - 1]
  }

  /** `value(x)` (and `__call__`): accumulate exp(x^T A x / 2 + x^T b) * c over the batch. `exp` is
    * the backend's exponential. */
  method Value(X: MatVec, x: Vector, exp: real -> real) returns (val: real)
    requires Uniform(X, |x|)
    ensures val == PartialValue(X, x, exp, ZipLength(X))
  {
    val := 0.0;
    var k := 0;
    while k < ZipLength(X)
      invariant 0 <= k <= ZipLength(X) && val == PartialValue(X, x, exp, k)
    {
      val := val + exp(Exponent(X.mat[k], X.vec[k], x)) * X.coeffs[k];
      k := k + 1;
    }
  }

  /** At x = 0 every exponent is 0, so with exp(0) = 1 the value is the sum of the coefficients. */
  lemma {:induction false} ValueAtZero(X: MatVec, n: nat, exp: real -> real, k: nat)
    requires Uniform(X, n) && k <= ZipLength(X) && exp(0.0) == 1.0
    ensures PartialValue(X, ZeroVector(n), exp, k) == SumR(X.coeffs[..k])
  {
    if k > 0 {
      var x := ZeroVector(n);
      ValueAtZero(X, n, exp, k - 1);
      DotZero(x, Apply(X.mat[k - 1], x));
      DotZero(x, X.vec[k - 1]);
      assert X.coeffs[..k][..k - 1] == X.coeffs[..k - 1];
    }
  }

  // ---------------------------------------------------------------------------------------------
  // obj[idx] and the index bookkeeping of @
  // ---------------------------------------------------------------------------------------------

  /** The argument of `obj[idx]`: an int or a tuple of ints. */
  datatype Index = IntIndex(i: int) | TupleIndex(t: seq<int>)

  /** An int is wrapped into a 1-tuple. */
  function AsTuple(idx: Index): (r: seq<int>)
    ensures idx.IntIndex? ==> r == [idx.i]
    ensures idx.TupleIndex? ==> r == idx.t
  {
    match idx
    case IntIndex(i) => [i]
    case TupleIndex(t) => t
  }

  /** The initial `i_prev`/`j_prev` of `@` (the float 1e32). */
  const Sentinel: int := 100000000000000000000000000000000

  /** One iteration of `@`: the shifted pair and the complement `noij` of {i, j} in [0, graph.dim). */
  datatype Step = Step(i: int, j: int, noij: seq<int>)

  /** `list(range(i)) + list(range(i + 1, j)) + list(range(j + 1, n))`. */
  function Noij(i: int, j: int, n: int): (r: seq<int>)
    ensures 0 <= i < n && 0 <= j < n ==> forall k | 0 <= k < |r| :: 0 <= r[k] < n
  {
    Range(0, i) + Range(i + 1, j) + Range(j + 1, n)
  }

  /** For 0 <= i < j < n, `noij` is the ascending list of [0, n) without i and j. */
  lemma NoijIsComplement(i: int, j: int, n: nat)
    requires 0 <= i < j < n
    ensures |Noij(i, j, n)| == n - 2
    ensures forall x :: x in Noij(i, j, n) <==> 0 <= x < n && x != i && x != j
    ensures StrictlyIncreasing(Noij(i, j, n))
  {
    var s := Noij(i, j, n);
    var a, b, c := Range(0, i), Range(i + 1, j), Range(j + 1, n);
    assert s == a + b + c;
    forall x | 0 <= x < n && x != i && x != j
      ensures x in s
    {
      if x < i {
        assert a[x] == x;
      } else if x < j {
        assert b[x - i - 1] == x;
      } else {
        assert c[x - j - 1] == x;
      }
    }
    forall p, q | 0 <= p < q < |s|
      ensures s[p] < s[q]
    {
      assert |a| == i && |b| == j - i - 1;
      if q < |a| || (p >= |a| && q < |a| + |b|) || p >= |a| + |b| {
      } else {
      }
    }
  }

  /** The shifted pairs `@` visits: `zip` truncates to the shorter index tuple; i drops by one when
    * the previous (shifted) i is below it, and j is offset by `self.dim` and drops by one when the
    * previous (shifted, offset) j is below the unshifted one. */
  function ShiftedPairs(iSeq: seq<int>, jSeq: seq<int>, dimSelf: int, iPrev: int, jPrev: int): (r: seq<(int, int)>)
    ensures |r| == if |iSeq| < |jSeq| then |iSeq| else |jSeq|
    decreases |iSeq|
  {
    if |iSeq| == 0 || |jSeq| == 0 then []
    else
      var i := iSeq[0] - (if iPrev < iSeq[0] then 1 else 0);
      var j := jSeq[0] + dimSelf - (if jPrev < jSeq[0] then 1 else 0);
      [(i, j)] + ShiftedPairs(iSeq[1..], jSeq[1..], dimSelf, i, j)
  }

  /** The shift rule, stated for every position of the zip. */
  lemma {:induction false} ShiftRule(iSeq: seq<int>, jSeq: seq<int>, dimSelf: int, iPrev: int, jPrev: int, k: nat)
    requires k < |iSeq| && k < |jSeq|
    ensures var r := ShiftedPairs(iSeq, jSeq, dimSelf, iPrev, jPrev);
      var pi := if k == 0 then iPrev else r[k - 1].0;
      var pj := if k == 0 then jPrev else r[k - 1].1;
      r[k].0 == iSeq[k] - (if pi < iSeq[k] then 1 else 0) && r[k].1 == jSeq[k] + dimSelf - (if pj < jSeq[k] then 1 else 0)
    decreases k
  {
    if k > 0 {
      var r := ShiftedPairs(iSeq, jSeq, dimSelf, iPrev, jPrev);
      var i0 := iSeq[0] - (if iPrev < iSeq[0] then 1 else 0);
      var j0 := jSeq[0] + dimSelf - (if jPrev < jSeq[0] then 1 else 0);
      ShiftRule(iSeq[1..], jSeq[1..], dimSelf, i0, j0, k - 1);
      if k == 1 {
        assert r[0] == (i0, j0);
      }
    }
  }

  /** Unrolling the zip at position k of the index tuples. */
  lemma ShiftedUnroll(iSeq: seq<int>, jSeq: seq<int>, dimSelf: int, iPrev: int, jPrev: int, k: nat)
    requires k < |iSeq| && k < |jSeq|
    ensures var i := iSeq[k] - (if iPrev < iSeq[k] then 1 else 0);
      var j := jSeq[k] + dimSelf - (if jPrev < jSeq[k] then 1 else 0);
      ShiftedPairs(iSeq[k..], jSeq[k..], dimSelf, iPrev, jPrev) == [(i, j)] + ShiftedPairs(iSeq[k + 1..], jSeq[k + 1..], dimSelf, i, j)
  {
    assert iSeq[k..][1..] == iSeq[k + 1..] && jSeq[k..][1..] == jSeq[k + 1..];
  }

  /** A first pair below the sentinel is not shifted at all. */
  lemma FirstPairUnshifted(iSeq: seq<int>, jSeq: seq<int>, dimSelf: int)
    requires |iSeq| > 0 && |jSeq| > 0 && iSeq[0] < Sentinel && jSeq[0] < Sentinel
    ensures ShiftedPairs(iSeq, jSeq, dimSelf, Sentinel, Sentinel)[0] == (iSeq[0], jSeq[0] + dimSelf)
  {
  }

  /** The gathered blocks of one batch entry for the pair (i, j). */
  datatype Blocks = Blocks(Abar: Matrix, bbar: Vector, D: Matrix, M: Matrix, bPair: Vector)

  /** `Abar`, `bbar`, `D`, the 2 x 2 coupling block M and `b_` of one batch entry: everything is read
    * from the graph entry, at positions `noij` and i, j. */
  function Gathered(A: Matrix, b: Vector, i: nat, j: nat, noij: seq<int>): (r: Blocks)
    requires IsSquare(A, |b|) && i < |b| && j < |b| && forall k | 0 <= k < |noij| :: 0 <= noij[k] < |b|
    ensures IsSquare(r.Abar, |noij|) && |r.bbar| == |noij| && |r.D| == |noij| && IsSquare(r.M, 2) && |r.bPair| == 2
    ensures forall k, l | 0 <= k < |noij| && 0 <= l < |noij| :: r.Abar[k][l] == A[noij[k]][noij[l]]
    ensures forall k | 0 <= k < |noij| :: r.bbar[k] == b[noij[k]] && r.D[k] == [A[noij[k]][i], A[noij[k]][j]]
    ensures r.M == [[A[i][i], A[j][i] - 1.0], [A[i][j] - 1.0, A[j][j]]]
    ensures r.bPair == [b[i], b[j]]
  {
    Blocks(Gather2(A, noij), Gather(b, noij),
           seq(|noij|, k requires 0 <= k < |noij| => [A[noij[k]][i], A[noij[k]][j]]),
           [[A[i][i], A[j][i] - 1.0], [A[i][j] - 1.0, A[j][j]]],
           [b[i], b[j]])
  }

  /** The outcome of the index bookkeeping of `@`: the graph `self & other`, the steps in order and,
    * when there is a step, the blocks of every batch entry at the last one, which is what the
    * returned triple is computed from. */
  datatype Contraction = Contraction(graph: MatVec, steps: seq<Step>, last: seq<Blocks>)

  /** The blocks of every batch entry of the graph at a step. */
  function GatherAll(graph: MatVec, d: nat, s: Step): (r: seq<Blocks>)
    requires Uniform(graph, d) && |graph.mat| == |graph.vec|
    requires 0 <= s.i < d && 0 <= s.j < d && forall k | 0 <= k < |s.noij| :: 0 <= s.noij[k] < d
    ensures |r| == |graph.mat|
    ensures forall k | 0 <= k < |r| :: r[k] == Gathered(graph.mat[k], graph.vec[k], s.i, s.j, s.noij)
  {
    seq(|graph.mat|, k requires 0 <= k < |graph.mat| => Gathered(graph.mat[k], graph.vec[k], s.i, s.j, s.noij))
  }

  /** A step is usable on a graph of dimension d when both indices are in [0, d). */
  predicate InRange(p: (int, int), d: nat)
  {
    0 <= p.0 < d && 0 <= p.1 < d
  }


  predicate AllInRange(pairs: seq<(int, int)>, d: nat)
  {
    forall k | 0 <= k < |pairs| :: InRange(pairs[k], d)
  }

  /** The contraction `@` plans for in-range pairs: one step per pair, each with its `noij`, and the
    * blocks gathered from the graph at the last pair. */
  function Planned(graph: MatVec, d: nat, pairs: seq<(int, int)>): (r: Contraction)
    requires Uniform(graph, d) && |graph.mat| == |graph.vec| && AllInRange(pairs, d)
    ensures r.graph == graph && |r.steps| == |pairs|
    ensures forall k | 0 <= k < |pairs| :: r.steps[k] == Step(pairs[k].0, pairs[k].1, Noij(pairs[k].0, pairs[k].1, d))
    ensures |pairs| == 0 ==> r.last == []
  {
    var steps := seq(|pairs|, k requires 0 <= k < |pairs| => Step(pairs[k].0, pairs[k].1, Noij(pairs[k].0, pairs[k].1, d)));
    if |pairs| == 0 then Contraction(graph, steps, [])
    else
      var p := pairs[|pairs| - 1];
      Contraction(graph, steps, GatherAll(graph, d, Step(p.0, p.1, Noij(p.0, p.1, d))))
  }

  lemma PlannedStep(graph: MatVec, d: nat, pairs: seq<(int, int)>, p: (int, int))
    requires Uniform(graph, d) && |graph.mat| == |graph.vec| && AllInRange(pairs, d) && InRange(p, d)
    ensures AllInRange(pairs + [p], d)
    ensures var c := Planned(graph, d, pairs);
      Planned(graph, d, pairs + [p]) == Contraction(graph, c.steps + [Step(p.0, p.1, Noij(p.0, p.1, d))], GatherAll(graph, d, Step(p.0, p.1, Noij(p.0, p.1, d))))
  {
    var c := Planned(graph, d, pairs);
    var c' := Planned(graph, d, pairs + [p]);
    assert c'.steps == c.steps + [Step(p.0, p.1, Noij(p.0, p.1, d))];
  }

  /** The invariant of the loop of `@` after k pairs: they were in range, the rest of the zip is
    * still to be shifted from the last pair, and the steps and blocks are those planned so far. */
  ghost predicate PlanInv(graph: MatVec, d: nat, iSeq: seq<int>, jSeq: seq<int>, dimSelf: int, pairs: seq<(int, int)>,
                          k: nat, iPrev: int, jPrev: int, steps: seq<Step>, last: seq<Blocks>)
  {
    Uniform(graph, d) && |graph.mat| == |graph.vec| && k <= |iSeq| && k <= |jSeq| && k <= |pairs| && AllInRange(pairs[..k], d)
    && ShiftedPairs(iSeq[k..], jSeq[k..], dimSelf, iPrev, jPrev) == pairs[k..]
    && Planned(graph, d, pairs[..k]) == Contraction(graph, steps, last)
  }

  /** One iteration of the loop of `@` keeps its invariant, or finds the pair out of range. */
  lemma PlanAdvance(graph: MatVec, d: nat, iSeq: seq<int>, jSeq: seq<int>, dimSelf: int, pairs: seq<(int, int)>,
                    k: nat, iPrev: int, jPrev: int, steps: seq<Step>, last: seq<Blocks>, i: int, j: int)
    requires k < |iSeq| && k < |jSeq| && pairs == ShiftedPairs(iSeq, jSeq, dimSelf, Sentinel, Sentinel)
    requires PlanInv(graph, d, iSeq, jSeq, dimSelf, pairs, k, iPrev, jPrev, steps, last)
    requires i == iSeq[k] - (if iPrev < iSeq[k] then 1 else 0)
    requires j == jSeq[k] + dimSelf - (if jPrev < jSeq[k] then 1 else 0)
    ensures !InRange((i, j), d) ==> !AllInRange(pairs, d)
    ensures InRange((i, j), d) ==>
      PlanInv(graph, d, iSeq, jSeq, dimSelf, pairs, k + 1, i, j, steps + [Step(i, j, Noij(i, j, d))], GatherAll(graph, d, Step(i, j, Noij(i, j, d))))
  {
    ShiftedUnroll(iSeq, jSeq, dimSelf, iPrev, jPrev, k);
    assert pairs[k..][0] == pairs[k] == (i, j);
    assert pairs[k + 1..] == pairs[k..][1..];
    assert pairs[..k + 1] == pairs[..k] + [(i, j)];
    if InRange((i, j), d) {
      PlannedStep(graph, d, pairs[..k], (i, j));
    } else {
      assert !InRange(pairs[k], d);
    }
  }

  /** When the zip is used up, the invariant gives the whole plan. */
  lemma PlanDone(graph: MatVec, d: nat, iSeq: seq<int>, jSeq: seq<int>, dimSelf: int, pairs: seq<(int, int)>,
                 k: nat, iPrev: int, jPrev: int, steps: seq<Step>, last: seq<Blocks>)
    requires pairs == ShiftedPairs(iSeq, jSeq, dimSelf, Sentinel, Sentinel) && !(k < |iSeq| && k < |jSeq|)
    requires PlanInv(graph, d, iSeq, jSeq, dimSelf, pairs, k, iPrev, jPrev, steps, last)
    ensures AllInRange(pairs, d) && Planned(graph, d, pairs) == Contraction(graph, steps, last)
  {
    assert pairs[..k] == pairs;
  }

  /** The loop of `@`: shift each pair of the zip, stop with IndexError at the first one outside
    * the graph, and otherwise record its step and gather the blocks at it. */
  method Plan(graph: MatVec, d: nat, iSeq: seq<int>, jSeq: seq<int>, dimSelf: int) returns (r: Result<Contraction>)
    requires Uniform(graph, d) && |graph.mat| == |graph.vec|
    ensures var pairs := ShiftedPairs(iSeq, jSeq, dimSelf, Sentinel, Sentinel);
      r == if AllInRange(pairs, d) then Ok(Planned(graph, d, pairs)) else Err(IndexError)
  {
    ghost var pairs := ShiftedPairs(iSeq, jSeq, dimSelf, Sentinel, Sentinel);
    var steps: seq<Step> := [];
    var last: seq<Blocks> := [];
    var iPrev, jPrev := Sentinel, Sentinel;
    var k := 0;
    assert pairs[..0] == [] && iSeq[0..] == iSeq && jSeq[0..] == jSeq;
    while k < |iSeq| && k < |jSeq|
      invariant PlanInv(graph, d, iSeq, jSeq, dimSelf, pairs, k, iPrev, jPrev, steps, last)
    {
      var i := iSeq[k] - (if iPrev < iSeq[k] then 1 else 0);
      var j := jSeq[k] + dimSelf - (if jPrev < jSeq[k] then 1 else 0);
      PlanAdvance(graph, d, iSeq, jSeq, dimSelf, pairs, k, iPrev, jPrev, steps, last, i, j);
      if !(0 <= i < d && 0 <= j < d) {
        return Err(IndexError);
      }
      var noij := Noij(i, j, d);
      steps := steps + [Step(i, j, noij)];
      last := GatherAll(graph, d, Step(i, j, noij));
      iPrev, jPrev := i, j;
      k := k + 1;
    }
    PlanDone(graph, d, iSeq, jSeq, dimSelf, pairs, k, iPrev, jPrev, steps, last);
    r := Ok(Contraction(graph, steps, last));
  }

  /** A triple whose `contract_idxs` are set by `obj[idx]`. */
  class ABCObject {
    const data: MatVec
    const n: nat
    var contractIdxs: Option<seq<int>>

    ghost predicate Valid()
      reads this
    {
      Uniform(data, n) && |data.mat| == |data.vec|
    }

    constructor (X: MatVec, dim: nat)
      requires Uniform(X, dim) && |X.mat| == |X.vec|
      ensures Valid() && data == X && n == dim && contractIdxs == None
    {
      data := X;
      n := dim;
      contractIdxs := None;
    }

    /** `obj[idx]`: store idx (an int wrapped into a 1-tuple) and return the same object. */
    method GetItem(idx: Index) returns (r: ABCObject)
      modifies this
      ensures r == this && contractIdxs == Some(AsTuple(idx))
    {
      contractIdxs := Some(AsTuple(idx));
      r := this;
    }

    /** The index bookkeeping of `self @ other`. Reading unset contraction indices raises
      * AttributeError; a shifted index outside [0, graph.dim) raises IndexError. Every iteration
      * gathers from `graph`, never from the previous iteration's result, so only the last step
      * determines the blocks the returned triple is computed from. */
    method Matmul(other: ABCObject) returns (r: Result<Contraction>)
      requires Valid() && other.Valid()
      ensures contractIdxs.None? || other.contractIdxs.None? ==> r == Err(AttributeError)
      ensures contractIdxs.Some? && other.contractIdxs.Some? ==>
        var pairs := ShiftedPairs(contractIdxs.value, other.contractIdxs.value, n, Sentinel, Sentinel);
        r == if AllInRange(pairs, n + other.n) then Ok(Planned(And(data, n, other.data, other.n), n + other.n, pairs))
             else Err(IndexError)
    {
      if contractIdxs.None? || other.contractIdxs.None? {
        return Err(AttributeError);
      }
      var graph := And(data, n, other.data, other.n);
      AndBatches(data, n, other.data, other.n);
      var iSeq, jSeq := contractIdxs.value, other.contractIdxs.value;
      r := Plan(graph, n + other.n, iSeq, jSeq, n);
    }
  }
}
