/** `MatVecData` (mrmustard/lab/representations/data/matvec_data.py): a batch of matrices, a batch of
  * vectors and a batch of coefficients. Every live operation builds a new value, so the data is a
  * datatype and the operations are functions. */
module MatVecData {
  import opened Wrappers
  import opened LinAlg

  datatype MatVec = MatVec(mat: seq<Matrix>, vec: seq<Vector>, coeffs: seq<real>)

  /** One of the arrays handed to `Data.same`. */
  datatype Field = Mats(m: seq<Matrix>) | Vecs(v: seq<Vector>) | Coeffs(c: seq<real>)

  /** The right operand of a binary operation: another data object, a scalar, or an object that has
    * none of the attributes `mat`, `vec` and `coeffs`. */
  datatype Operand = Data(data: MatVec) | Scalar(x: real) | Other

  /** `-data`: a new object with the coefficients negated and mat, vec unchanged. */
  function Neg(d: MatVec): (r: MatVec)
    ensures r.mat == d.mat && r.vec == d.vec && |r.coeffs| == |d.coeffs|
    ensures forall k | 0 <= k < |d.coeffs| :: r.coeffs[k] + d.coeffs[k] == 0.0
  {
    MatVec(d.mat, d.vec, seq(|d.coeffs|, k requires 0 <= k < |d.coeffs| => -d.coeffs[k]))
  }

  lemma NegInvolution(d: MatVec)
    ensures Neg(Neg(d)) == d
  {
    assert Neg(Neg(d)).coeffs == d.coeffs;
  }

  /** `data / x`: the coefficients divided by x, mat and vec unchanged. */
  function TrueDiv(d: MatVec, x: real): (r: MatVec)
    requires x != 0.0
    ensures r.mat == d.mat && r.vec == d.vec && |r.coeffs| == |d.coeffs|
    ensures forall k | 0 <= k < |d.coeffs| :: r.coeffs[k] * x == d.coeffs[k]
  {
    MatVec(d.mat, d.vec, seq(|d.coeffs|, k requires 0 <= k < |d.coeffs| => d.coeffs[k] / x))
  }

  /** Dividing by 1 changes nothing, and dividing by x then by y is dividing by x * y. */
  lemma TrueDivComposes(d: MatVec, x: real, y: real)
    requires x != 0.0 && y != 0.0
    ensures TrueDiv(d, 1.0) == d
    ensures TrueDiv(TrueDiv(d, x), y) == TrueDiv(d, x * y)
  {
    assert TrueDiv(d, 1.0).coeffs == d.coeffs;
    var l := TrueDiv(TrueDiv(d, x), y).coeffs;
    var r := TrueDiv(d, x * y).coeffs;
    forall k | 0 <= k < |d.coeffs|
      ensures l[k] == r[k]
    {
      assert l[k] * (x * y) == d.coeffs[k];
    }
  }

  /** `data == other`: `Data.same` on [mat, vec, coeffs]; an operand without those attributes
    * raises TypeError. `same` is the comparison the base class supplies. */
  function Eq(d: MatVec, other: Operand, same: (seq<Field>, seq<Field>) -> bool): (r: Result<bool>)
    ensures r.Err? <==> !other.Data?
    ensures r.Err? ==> r.error == TypeError
    ensures r.Ok? ==> r.value == same([Mats(d.mat), Vecs(d.vec), Coeffs(d.coeffs)],
                                      [Mats(other.data.mat), Vecs(other.data.vec), Coeffs(other.data.coeffs)])
  {
    if !other.Data? then Err(TypeError)
    else Ok(same([Mats(d.mat), Vecs(d.vec), Coeffs(d.coeffs)],
                 [Mats(other.data.mat), Vecs(other.data.vec), Coeffs(other.data.coeffs)]))
  }

  /** With exact comparison for `same`, equality holds exactly when mat, vec and coeffs all agree. */
  lemma EqIsFieldwise(d: MatVec, e: MatVec)
    ensures Eq(d, Data(e), (X, Y) => X == Y) == Ok(d.mat == e.mat && d.vec == e.vec && d.coeffs == e.coeffs)
  {
    var X := [Mats(d.mat), Vecs(d.vec), Coeffs(d.coeffs)];
    var Y := [Mats(e.mat), Vecs(e.vec), Coeffs(e.coeffs)];
    if X == Y {
      assert X[0] == Y[0] && X[1] == Y[1] && X[2] == Y[2];
    }
  }

  /** numpy's `a + b` on coefficient vectors: equal lengths add entrywise, a length-1 operand is
    * broadcast, and any other pair of lengths raises ValueError. */
  function CoeffSum(a: seq<real>, b: seq<real>): (r: Result<seq<real>>)
    ensures r.Ok? <==> |a| == |b| || |a| == 1 || |b| == 1
    ensures r.Err? ==> r.error == ValueError
    ensures r.Ok? && |a| == |b| ==> |r.value| == |a| && forall k | 0 <= k < |a| :: r.value[k] == a[k] + b[k]
    ensures r.Ok? && |a| == 1 ==> |r.value| == |b| && forall k | 0 <= k < |b| :: r.value[k] == a[0] + b[k]
    ensures r.Ok? && |b| == 1 ==> |r.value| == |a| && forall k | 0 <= k < |a| :: r.value[k] == a[k] + b[0]
  {
    if |a| == |b| then Ok(seq(|a|, k requires 0 <= k < |a| => a[k] + b[k]))
    else if |a| == 1 then Ok(seq(|b|, k requires 0 <= k < |b| => a[0] + b[k]))
    else if |b| == 1 then Ok(seq(|a|, k requires 0 <= k < |a| => a[k] + b[0]))
    else Err(ValueError)
  }

  /** The reordering of the concatenating branch of `__add__`, from
    * `reorder_matrix_from_qpqp_to_qqpp`: its action on each matrix (R M R^T) and on each vector (R v). */
  datatype Reorder = Reorder(onMatrix: Matrix -> Matrix, onVector: Vector -> Vector)

  function MapMatrices(f: Matrix -> Matrix, s: seq<Matrix>): (r: seq<Matrix>)
    ensures |r| == |s| && forall k | 0 <= k < |s| :: r[k] == f(s[k])
  {
    seq(|s|, k requires 0 <= k < |s| => f(s[k]))
  }

  function MapVectors(f: Vector -> Vector, s: seq<Vector>): (r: seq<Vector>)
    ensures |r| == |s| && forall k | 0 <= k < |s| :: r[k] == f(s[k])
  {
    seq(|s|, k requires 0 <= k < |s| => f(s[k]))
  }

  /** `data + other`. If `same` holds of [mat, vec] the coefficients are summed and mat, vec kept;
    * otherwise the batches are concatenated (self first), reordered, and the coefficients
    * concatenated in the same order. An operand without the attributes raises TypeError. */
  function Add(d: MatVec, other: Operand, same: (seq<Field>, seq<Field>) -> bool, reorder: Reorder): (r: Result<MatVec>)
    ensures !other.Data? ==> r == Err(TypeError)
    ensures other.Data? && same([Mats(d.mat), Vecs(d.vec)], [Mats(other.data.mat), Vecs(other.data.vec)]) ==>
      match CoeffSum(d.coeffs, other.data.coeffs)
      case Ok(c) => r == Ok(MatVec(d.mat, d.vec, c))
      case Err(e) => r == Err(e)
    ensures other.Data? && !same([Mats(d.mat), Vecs(d.vec)], [Mats(other.data.mat), Vecs(other.data.vec)]) ==>
      r.Ok? && |r.value.mat| == |d.mat| + |other.data.mat| && |r.value.vec| == |d.vec| + |other.data.vec|
      && r.value.coeffs == d.coeffs + other.data.coeffs
      && (forall k | 0 <= k < |d.mat| :: r.value.mat[k] == reorder.onMatrix(d.mat[k]))
      && (forall k | 0 <= k < |other.data.mat| :: r.value.mat[|d.mat| + k] == reorder.onMatrix(other.data.mat[k]))
      && (forall k | 0 <= k < |d.vec| :: r.value.vec[k] == reorder.onVector(d.vec[k]))
      && (forall k | 0 <= k < |other.data.vec| :: r.value.vec[|d.vec| + k] == reorder.onVector(other.data.vec[k]))
  {
    if !other.Data? then Err(TypeError)
    else
      var o := other.data;
      if same([Mats(d.mat), Vecs(d.vec)], [Mats(o.mat), Vecs(o.vec)]) then
        match CoeffSum(d.coeffs, o.coeffs)
        case Ok(c) => Ok(MatVec(d.mat, d.vec, c))
        case Err(e) => Err(e)
      else
        Ok(MatVec(MapMatrices(reorder.onMatrix, d.mat + o.mat), MapVectors(reorder.onVector, d.vec + o.vec), d.coeffs + o.coeffs))
  }

  /** Adding the negation of a data object to itself, when `same` recognises equal arrays, keeps
    * mat and vec and gives all-zero coefficients. */
  lemma AddNegIsZero(d: MatVec, same: (seq<Field>, seq<Field>) -> bool, reorder: Reorder)
    requires same([Mats(d.mat), Vecs(d.vec)], [Mats(d.mat), Vecs(d.vec)])
    ensures Add(d, Data(Neg(d)), same, reorder).Ok?
    ensures var r := Add(d, Data(Neg(d)), same, reorder).value;
      r.mat == d.mat && r.vec == d.vec && |r.coeffs| == |d.coeffs| && forall k | 0 <= k < |d.coeffs| :: r.coeffs[k] == 0.0
  {
    var n := Neg(d);
    assert n.mat == d.mat && n.vec == d.vec;
    assert CoeffSum(d.coeffs, n.coeffs).Ok?;
  }

  /** With symmetric `same`, summing coefficients does not depend on the operand order. */
  lemma AddSameCommutes(d: MatVec, e: MatVec, same: (seq<Field>, seq<Field>) -> bool, reorder: Reorder)
    requires e.mat == d.mat && e.vec == d.vec
    requires same([Mats(d.mat), Vecs(d.vec)], [Mats(d.mat), Vecs(d.vec)])
    ensures Add(d, Data(e), same, reorder) == Add(e, Data(d), same, reorder)
  {
    var a := CoeffSum(d.coeffs, e.coeffs);
    var b := CoeffSum(e.coeffs, d.coeffs);
    if a.Ok? {
      assert a.value == b.value;
    }
  }
}
