/** Dense row-major tensors (the numpy arrays of the Fock representation), addressed by index tuples.
  * The last axis varies fastest. */
module Dense {
  datatype Tensor<T> = Tensor(shape: seq<nat>, data: seq<T>)
  {
    predicate Valid() { |data| == Prod(shape) }
  }

  /** Number of entries of an array of the given shape (`numpy.prod(shape)`). */
  function Prod(shape: seq<nat>): nat
  {
    if |shape| == 0 then 1 else shape[0] * Prod(shape[1..])
  }

  predicate InShape(idx: seq<int>, shape: seq<nat>)
  {
    |idx| == |shape| && forall k | 0 <= k < |idx| :: 0 <= idx[k] < shape[k]
  }

  lemma MulMonotone(a: nat, b: nat, p: nat)
    requires a < b
    ensures a * p + p <= b * p
  {
    MulLe(a + 1, b, p);
  }

  lemma MulLe(a: int, b: int, p: nat)
    requires a <= b
    ensures a * p <= b * p
  {
    assert b * p - a * p == (b - a) * p;
  }

  /** Row-major flat position of an index tuple. */
  function Flatten(idx: seq<int>, shape: seq<nat>): (r: nat)
    requires InShape(idx, shape)
    ensures r < Prod(shape)
  {
    if |shape| == 0 then 0
    else
      var rest := Flatten(idx[1..], shape[1..]);
      MulMonotone(idx[0], shape[0], Prod(shape[1..]));
      idx[0] * Prod(shape[1..]) + rest
  }

  /** The index tuple at a row-major flat position. */
  function Unflatten(k: nat, shape: seq<nat>): (idx: seq<int>)
    requires k < Prod(shape)
    ensures InShape(idx, shape)
  {
    if |shape| == 0 then []
    else
      var p := Prod(shape[1..]);
      DivBound(k, shape[0], p);
      var rest := Unflatten(k % p, shape[1..]);
      InShapeCons(k / p, rest, shape);
      [k / p] + rest
  }

  lemma DivBound(k: nat, n: nat, p: nat)
    requires k < n * p
    ensures p > 0 && 0 <= k / p < n && k % p < p
  {
    if k / p >= n {
      MulLe(n, k / p, p);
    }
  }

  lemma InShapeCons(i: int, rest: seq<int>, shape: seq<nat>)
    requires |shape| > 0 && 0 <= i < shape[0] && InShape(rest, shape[1..])
    ensures InShape([i] + rest, shape)
  {
  }

  lemma {:induction false} FlattenUnflatten(k: nat, shape: seq<nat>)
    requires k < Prod(shape)
    ensures Flatten(Unflatten(k, shape), shape) == k
  {
    if |shape| > 0 {
      var p := Prod(shape[1..]);
      DivBound(k, shape[0], p);
      FlattenUnflatten(k % p, shape[1..]);
      var u := Unflatten(k, shape);
      assert u[0] == k / p;
      assert u[1..] == Unflatten(k % p, shape[1..]);
      assert Flatten(u, shape) == (k / p) * p + Flatten(u[1..], shape[1..]);
      assert (k / p) * p + k % p == k;
    }
  }

  lemma {:induction false} UnflattenFlatten(idx: seq<int>, shape: seq<nat>)
    requires InShape(idx, shape)
    ensures Unflatten(Flatten(idx, shape), shape) == idx
  {
    if |shape| > 0 {
      var p := Prod(shape[1..]);
      var rest := Flatten(idx[1..], shape[1..]);
      var k := idx[0] * p + rest;
      assert k / p == idx[0] && k % p == rest by {
        DivModUnique(k, p, idx[0], rest);
      }
      UnflattenFlatten(idx[1..], shape[1..]);
      assert [idx[0]] + idx[1..] == idx;
    }
  }

  lemma DivModUnique(k: int, p: int, q: int, r: int)
    requires p > 0 && 0 <= r < p && k == q * p + r
    ensures k / p == q && k % p == r
  {
    var d := k / p - q;
    assert d * p == r - k % p;
    if d > 0 {
      MulLe(1, d, p);
    } else if d < 0 {
      MulLe(d, -1, p);
    }
  }

  /** Distinct index tuples of one shape have distinct flat positions. */
  lemma FlattenInjective(i: seq<int>, j: seq<int>, shape: seq<nat>)
    requires InShape(i, shape) && InShape(j, shape) && i != j
    ensures Flatten(i, shape) != Flatten(j, shape)
  {
    UnflattenFlatten(i, shape);
    UnflattenFlatten(j, shape);
  }

  /** The entry `t[idx]`. */
  function At<T>(t: Tensor<T>, idx: seq<int>): T
    requires t.Valid() && InShape(idx, t.shape)
  {
    t.data[Flatten(idx, t.shape)]
  }

  /** Builds a tensor of the given shape from its entry at every index. */
  function Build<T>(shape: seq<nat>, f: seq<int> -> T): (t: Tensor<T>)
    ensures t.Valid() && t.shape == shape
    ensures forall idx | InShape(idx, shape) :: At(t, idx) == f(idx)
  {
    var t := Tensor(shape, seq(Prod(shape), k requires 0 <= k < Prod(shape) => f(Unflatten(k, shape))));
    assert forall idx | InShape(idx, shape) :: At(t, idx) == f(idx) by {
      forall idx | InShape(idx, shape) ensures At(t, idx) == f(idx) {
        UnflattenFlatten(idx, shape);
      }
    }
    t
  }

  predicate ShapeAtMost(small: seq<nat>, big: seq<nat>)
  {
    |small| == |big| && forall k | 0 <= k < |small| :: small[k] <= big[k]
  }

  /** `numpy.pad(t, [(0, p) for p in pads])`: zeros appended at the end of every axis. */
  function Pad<T>(t: Tensor<T>, pads: seq<nat>, zero: T): (r: Tensor<T>)
    requires t.Valid() && |pads| == |t.shape|
    ensures r.Valid() && |r.shape| == |t.shape|
    ensures forall k | 0 <= k < |pads| :: r.shape[k] == t.shape[k] + pads[k]
    ensures forall idx | InShape(idx, r.shape) ::
      At(r, idx) == if InShape(idx, t.shape) then At(t, idx) else zero
  {
    var shape := seq(|pads|, k requires 0 <= k < |pads| => t.shape[k] + pads[k]);
    Build(shape, idx => if InShape(idx, t.shape) then At(t, idx) else zero)
  }

  /** `t[:c0, :c1, ...]` for a shape no larger than t's on every axis. */
  function Slice<T>(t: Tensor<T>, cut: seq<nat>): (r: Tensor<T>)
    requires t.Valid() && ShapeAtMost(cut, t.shape)
    ensures r.Valid() && r.shape == cut
    ensures forall idx | InShape(idx, cut) :: InShape(idx, t.shape) && At(r, idx) == At(t, idx)
  {
    var r := Tensor(cut, seq(Prod(cut), k requires 0 <= k < Prod(cut) =>
      var idx := Unflatten(k, cut); t.data[Flatten(idx, t.shape)]));
    assert forall idx | InShape(idx, cut) :: At(r, idx) == At(t, idx) by {
      forall idx | InShape(idx, cut) ensures At(r, idx) == At(t, idx) {
        UnflattenFlatten(idx, cut);
      }
    }
    r
  }

  /** `numpy.reshape(t, shape)`: the same entries in the same row-major order. */
  function Reshape<T>(t: Tensor<T>, shape: seq<nat>): (r: Tensor<T>)
    requires t.Valid() && Prod(shape) == Prod(t.shape)
    ensures r.Valid() && r.shape == shape && r.data == t.data
  {
    Tensor(shape, t.data)
  }

  lemma Prod2(a: nat, b: nat)
    ensures Prod([a, b]) == a * b
  {
    assert [a, b][1..] == [b] && [b][1..] == [];
    assert Prod([b]) == b * Prod([]);
  }

  lemma Prod4(a: nat, b: nat, c: nat, d: nat)
    ensures Prod([a, b, c, d]) == a * (b * (c * d))
  {
    assert [a, b, c, d][1..] == [b, c, d] && [b, c, d][1..] == [c, d];
    Prod2(c, d);
    assert Prod([b, c, d]) == b * Prod([c, d]);
    assert Prod([a, b, c, d]) == a * Prod([b, c, d]);
  }

  /** Row-major position of a 2-index. */
  lemma Flatten2(i: int, j: int, a: nat, b: nat)
    requires 0 <= i < a && 0 <= j < b
    ensures InShape([i, j], [a, b]) && Flatten([i, j], [a, b]) == i * b + j
  {
    assert [i, j][1..] == [j] && [a, b][1..] == [b] && [j][1..] == [] && [b][1..] == [];
  }

  /** Row-major position of a 4-index. */
  lemma Flatten4(i: int, j: int, k: int, l: int, a: nat, b: nat, c: nat, d: nat)
    requires 0 <= i < a && 0 <= j < b && 0 <= k < c && 0 <= l < d
    ensures InShape([i, j, k, l], [a, b, c, d]) && Flatten([i, j, k, l], [a, b, c, d]) == ((i * b + j) * c + k) * d + l
  {
    var idx, shape := [i, j, k, l], [a, b, c, d];
    assert idx[1..] == [j, k, l] && shape[1..] == [b, c, d];
    assert [j, k, l][1..] == [k, l] && [b, c, d][1..] == [c, d];
    Flatten2(k, l, c, d);
    Prod2(c, d);
    assert Flatten([j, k, l], [b, c, d]) == j * (c * d) + k * d + l by {
      assert Prod([b, c, d][1..]) == c * d;
      assert Flatten([j, k, l], [b, c, d]) == j * Prod([c, d]) + Flatten([k, l], [c, d]);
    }
    assert Prod([b, c, d]) == b * (c * d) by {
      assert Prod([b, c, d]) == b * Prod([c, d]);
    }
    assert Flatten(idx, shape) == i * (b * (c * d)) + (j * (c * d) + k * d + l);
    Horner4(i, j, k, l, b, c, d);
  }

  lemma Horner4(i: int, j: int, k: int, l: int, b: int, c: int, d: int)
    ensures i * (b * (c * d)) + (j * (c * d) + k * d + l) == ((i * b + j) * c + k) * d + l
  {
    calc {
      ((i * b + j) * c + k) * d + l;
      (i * b + j) * c * d + k * d + l;
      ((i * b) * c + j * c) * d + k * d + l;
      (i * b) * c * d + j * c * d + k * d + l;
    }
    assert (i * b) * c * d == i * (b * (c * d));
    assert j * c * d == j * (c * d);
  }

  /** `gather(gather(t, perm, axis=1), perm, axis=3)` on a tensor of rank at least 4. */
  function GatherAxes13(t: Tensor<real>, perm: seq<int>): (r: Tensor<real>)
    requires t.Valid() && |t.shape| >= 4
    requires forall k | 0 <= k < |perm| :: 0 <= perm[k] < t.shape[1] && perm[k] < t.shape[3]
    ensures r.Valid() && r.shape == t.shape[1 := |perm|][3 := |perm|]
    ensures forall idx {:trigger At(r, idx)} | InShape(idx, r.shape) ::
      (InShape(idx[1 := perm[idx[1]]][3 := perm[idx[3]]], t.shape)
      && At(r, idx) == At(t, idx[1 := perm[idx[1]]][3 := perm[idx[3]]]))
  {
    var shape := t.shape[1 := |perm|][3 := |perm|];
    Build(shape, idx => if InShape(idx, shape) then At(t, idx[1 := perm[idx[1]]][3 := perm[idx[3]]]) else 0.0)
  }

  /** Two valid tensors of one shape with the same entry at every index are equal. */
  lemma Extensional<T>(t: Tensor<T>, u: Tensor<T>)
    requires t.Valid() && u.Valid() && t.shape == u.shape
    requires forall idx | InShape(idx, t.shape) :: At(t, idx) == At(u, idx)
    ensures t == u
  {
    forall k | 0 <= k < |t.data|
      ensures t.data[k] == u.data[k]
    {
      var idx := Unflatten(k, t.shape);
      FlattenUnflatten(k, t.shape);
      assert At(t, idx) == At(u, idx);
    }
  }
}
