/** `ArrayView` and `ConjView` (mrmustard/physics/array_views.py): immutable wrappers around an
  * array (the field `source`) and an optional minimal dimension. A view and its conjugate view share the array; the conjugate
  * view reads it conjugated. The backend's `atleast_kd` is not part of this model and is a
  * parameter; `astensor` is the identity. */
module ArrayViews {
  import opened Wrappers
  import Dense

  datatype Complex = Complex(re: real, im: real)

  function Conjugate(z: Complex): (r: Complex)
    ensures r.re == z.re && r.im == -z.im
  {
    Complex(z.re, -z.im)
  }

  /** `math.conj` on an array: every entry conjugated, the shape unchanged. */
  function ConjArray(t: Dense.Tensor<Complex>): (r: Dense.Tensor<Complex>)
    ensures r.shape == t.shape && |r.data| == |t.data|
    ensures forall k | 0 <= k < |t.data| :: r.data[k] == Conjugate(t.data[k])
  {
    Dense.Tensor(t.shape, seq(|t.data|, k requires 0 <= k < |t.data| => Conjugate(t.data[k])))
  }

  lemma ConjArrayInvolution(t: Dense.Tensor<Complex>)
    ensures ConjArray(ConjArray(t)) == t
  {
    assert ConjArray(ConjArray(t)).data == t.data;
  }

  /** A plain view or a conjugate view of `array`, with the `min_dim` it was built with. */
  datatype View = ArrayView(source: Dense.Tensor<Complex>, minDim: Option<int>)
                | ConjView(source: Dense.Tensor<Complex>, minDim: Option<int>)

  /** `_get_array`: `atleast_{min_dim}d(array)` when min_dim is truthy (neither None nor 0), else
    * the array itself. */
  function GetArray(v: View, atLeast: (Dense.Tensor<Complex>, int) -> Dense.Tensor<Complex>): (r: Dense.Tensor<Complex>)
    ensures (v.minDim == None || v.minDim == Some(0)) ==> r == v.source
    ensures v.minDim.Some? && v.minDim.value != 0 ==> r == atLeast(v.source, v.minDim.value)
  {
    match v.minDim
    case None => v.source
    case Some(d) => if d == 0 then v.source else atLeast(v.source, d)
  }

  /** The `array` property: the view's array, conjugated for a conjugate view. */
  function Array(v: View, atLeast: (Dense.Tensor<Complex>, int) -> Dense.Tensor<Complex>): (r: Dense.Tensor<Complex>)
    ensures v.ArrayView? ==> r == GetArray(v, atLeast)
    ensures v.ConjView? ==> r == ConjArray(GetArray(v, atLeast))
  {
    if v.ArrayView? then GetArray(v, atLeast) else ConjArray(GetArray(v, atLeast))
  }

  /** `conj()`: a conjugate view of a plain view and a plain view of a conjugate view, over the same
    * array and min_dim. */
  function Conj(v: View): (r: View)
    ensures r.source == v.source && r.minDim == v.minDim
    ensures r.ConjView? <==> v.ArrayView?
  {
    match v
    case ArrayView(a, d) => ConjView(a, d)
    case ConjView(a, d) => ArrayView(a, d)
  }

  /** Conjugating twice gives back the view, so `v.conj().conj().array == v.array`. */
  lemma ConjInvolution(v: View, atLeast: (Dense.Tensor<Complex>, int) -> Dense.Tensor<Complex>)
    ensures Conj(Conj(v)) == v
    ensures Array(Conj(Conj(v)), atLeast) == Array(v, atLeast)
  {
  }

  /** The array of the conjugate view is the conjugate of the view's array, for either kind of
    * view. */
  lemma ConjArrayOfConj(v: View, atLeast: (Dense.Tensor<Complex>, int) -> Dense.Tensor<Complex>)
    ensures Array(Conj(v), atLeast) == ConjArray(Array(v, atLeast))
  {
    if v.ConjView? {
      ConjArrayInvolution(GetArray(v, atLeast));
      assert GetArray(Conj(v), atLeast) == GetArray(v, atLeast);
    }
  }
}
