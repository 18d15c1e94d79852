// Lattice neighbour helpers of mrmustard/math/lattice/neighbours.py.
//
// Every helper perturbs one coordinate of a pivot in place, records or yields the perturbed pivot
// and restores the coordinate. A generator is modelled by the sequence of pivot contents at each
// `yield`; a `_fn` variant fills a fresh matrix row by row.

module Neighbours {

  /** The pivot with coordinate i moved by delta. */
  function Bump(p: seq<int>, i: nat, delta: int): (r: seq<int>)
    requires i < |p|
    ensures |r| == |p| && r[i] == p[i] + delta
    ensures forall j | 0 <= j < |p| && j != i :: r[j] == p[j]
  {
    p[i := p[i] + delta]
  }

  /** All neighbours, in yield order: pivot + e_0, pivot - e_0, pivot + e_1, pivot - e_1, ... */
  function AllNeighbours(p: seq<int>): (r: seq<seq<int>>)
    ensures |r| == 2 * |p|
  {
    seq(2 * |p|, k requires 0 <= k < 2 * |p| => Bump(p, k / 2, if k % 2 == 0 then 1 else -1))
  }

  /** The lower neighbours: pivot - e_i at step i. */
  function LowerNeighbours(p: seq<int>): (r: seq<seq<int>>)
    ensures |r| == |p|
  {
    seq(|p|, i requires 0 <= i < |p| => Bump(p, i, -1))
  }

  /** The upper neighbours: pivot + e_i at step i. */
  function UpperNeighbours(p: seq<int>): (r: seq<seq<int>>)
    ensures |r| == |p|
  {
    seq(|p|, i requires 0 <= i < |p| => Bump(p, i, 1))
  }

  /** The bitstring neighbours: pivot - e_i where bitstring[i] is truthy (non-zero), else pivot + e_i. */
  function BitstringNeighbours(p: seq<int>, bitstring: seq<int>): (r: seq<seq<int>>)
    requires |bitstring| <= |p|
    ensures |r| == |bitstring|
  {
    seq(|bitstring|, i requires 0 <= i < |bitstring| => Bump(p, i, if bitstring[i] != 0 then -1 else 1))
  }

  // ---------------------------------------------------------------------------------------------
  // Properties of the neighbour sets
  // ---------------------------------------------------------------------------------------------

  /** Neighbour k of the pivot differs from it only in coordinate k / 2, by +1 for even k and -1 for odd k. */
  lemma AllNeighboursDiffer(p: seq<int>, k: nat, j: nat)
    requires k < 2 * |p| && j < |p|
    ensures AllNeighbours(p)[k][j] - p[j] == if j != k / 2 then 0 else if k % 2 == 0 then 1 else -1
  {
  }

  /** The all-neighbours sequence interleaves the upper and the lower neighbours. */
  lemma AllInterleavesUpperLower(p: seq<int>)
    ensures forall i | 0 <= i < |p| :: AllNeighbours(p)[2 * i] == UpperNeighbours(p)[i]
    ensures forall i | 0 <= i < |p| :: AllNeighbours(p)[2 * i + 1] == LowerNeighbours(p)[i]
  {
    forall i | 0 <= i < |p|
      ensures AllNeighbours(p)[2 * i] == UpperNeighbours(p)[i]
      ensures AllNeighbours(p)[2 * i + 1] == LowerNeighbours(p)[i]
    {
      assert (2 * i) / 2 == i && (2 * i) % 2 == 0;
      assert (2 * i + 1) / 2 == i && (2 * i + 1) % 2 == 1;
    }
  }

  /** The lower neighbour i of the upper neighbour i is the pivot again, and vice versa. */
  lemma UpperLowerInverse(p: seq<int>, i: nat)
    requires i < |p|
    ensures LowerNeighbours(UpperNeighbours(p)[i])[i] == p
    ensures UpperNeighbours(LowerNeighbours(p)[i])[i] == p
  {
    assert Bump(Bump(p, i, 1), i, -1) == p;
    assert Bump(Bump(p, i, -1), i, 1) == p;
  }

  /** An all-truthy bitstring gives the lower neighbours and an all-zero one the upper neighbours. */
  lemma BitstringExtremes(p: seq<int>, bitstring: seq<int>)
    requires |bitstring| == |p|
    ensures (forall i | 0 <= i < |p| :: bitstring[i] != 0) ==> BitstringNeighbours(p, bitstring) == LowerNeighbours(p)
    ensures (forall i | 0 <= i < |p| :: bitstring[i] == 0) ==> BitstringNeighbours(p, bitstring) == UpperNeighbours(p)
  {
  }

  /** The upper neighbours of a pivot are never its lower neighbours (for a non-empty pivot). */
  lemma UpperIsNotLower(p: seq<int>)
    requires |p| > 0
    ensures UpperNeighbours(p) != LowerNeighbours(p)
  {
    assert UpperNeighbours(p)[0][0] == p[0] + 1;
    assert LowerNeighbours(p)[0][0] == p[0] - 1;
  }

  // ---------------------------------------------------------------------------------------------
  // The generators: mutate pivot[i], yield, restore
  // ---------------------------------------------------------------------------------------------

  /** `all_neighbours_gen`: the contents of pivot at each yield, and pivot restored once exhausted. */
  method AllNeighboursGen(pivot: array<int>) returns (yielded: seq<seq<int>>)
    modifies pivot
    ensures yielded == AllNeighbours(old(pivot[..]))
    ensures pivot[..] == old(pivot[..])
  {
    ghost var p := pivot[..];
    yielded := [];
    var i := 0;
    while i < pivot.Length
      invariant 0 <= i <= pivot.Length && pivot[..] == p
      invariant yielded == AllNeighbours(p)[..2 * i]
    {
      pivot[i] := pivot[i] + 1;
      assert pivot[..] == Bump(p, i, 1);
      yielded := yielded + [pivot[..]];
      pivot[i] := pivot[i] - 2;
      assert pivot[..] == Bump(p, i, -1);
      yielded := yielded + [pivot[..]];
      pivot[i] := pivot[i] + 1;
      assert pivot[..] == p;
      assert (2 * i) / 2 == i && (2 * i) % 2 == 0 && (2 * i + 1) / 2 == i && (2 * i + 1) % 2 == 1;
      assert AllNeighbours(p)[..2 * (i + 1)] == AllNeighbours(p)[..2 * i] + [Bump(p, i, 1), Bump(p, i, -1)];
      i := i + 1;
    }
    assert AllNeighbours(p)[..2 * i] == AllNeighbours(p);
  }

  /** `lower_neighbors_gen`. */
  method LowerNeighboursGen(pivot: array<int>) returns (yielded: seq<seq<int>>)
    modifies pivot
    ensures yielded == LowerNeighbours(old(pivot[..]))
    ensures pivot[..] == old(pivot[..])
  {
    ghost var p := pivot[..];
    yielded := [];
    var i := 0;
    while i < pivot.Length
      invariant 0 <= i <= pivot.Length && pivot[..] == p
      invariant yielded == LowerNeighbours(p)[..i]
    {
      pivot[i] := pivot[i] - 1;
      yielded := yielded + [pivot[..]];
      pivot[i] := pivot[i] + 1;
      assert pivot[..] == p;
      assert LowerNeighbours(p)[..i + 1] == LowerNeighbours(p)[..i] + [Bump(p, i, -1)];
      i := i + 1;
    }
    assert LowerNeighbours(p)[..i] == LowerNeighbours(p);
  }

  /** `upper_neighbors_gen`. */
  method UpperNeighboursGen(pivot: array<int>) returns (yielded: seq<seq<int>>)
    modifies pivot
    ensures yielded == UpperNeighbours(old(pivot[..]))
    ensures pivot[..] == old(pivot[..])
  {
    ghost var p := pivot[..];
    yielded := [];
    var i := 0;
    while i < pivot.Length
      invariant 0 <= i <= pivot.Length && pivot[..] == p
      invariant yielded == UpperNeighbours(p)[..i]
    {
      pivot[i] := pivot[i] + 1;
      yielded := yielded + [pivot[..]];
      pivot[i] := pivot[i] - 1;
      assert pivot[..] == p;
      assert UpperNeighbours(p)[..i + 1] == UpperNeighbours(p)[..i] + [Bump(p, i, 1)];
      i := i + 1;
    }
    assert UpperNeighbours(p)[..i] == UpperNeighbours(p);
  }

  /** `bitstring_neighbours_gen`: one step per bitstring entry. */
  method BitstringNeighboursGen(pivot: array<int>, bitstring: seq<int>) returns (yielded: seq<seq<int>>)
    requires |bitstring| <= pivot.Length
    modifies pivot
    ensures yielded == BitstringNeighbours(old(pivot[..]), bitstring)
    ensures pivot[..] == old(pivot[..])
  {
    ghost var p := pivot[..];
    yielded := [];
    var i := 0;
    while i < |bitstring|
      invariant 0 <= i <= |bitstring| && pivot[..] == p
      invariant yielded == BitstringNeighbours(p, bitstring)[..i]
    {
      if bitstring[i] != 0 {
        pivot[i] := pivot[i] - 1;
        yielded := yielded + [pivot[..]];
        pivot[i] := pivot[i] + 1;
      } else {
        pivot[i] := pivot[i] + 1;
        yielded := yielded + [pivot[..]];
        pivot[i] := pivot[i] - 1;
      }
      assert pivot[..] == p;
      assert BitstringNeighbours(p, bitstring)[..i + 1] == BitstringNeighbours(p, bitstring)[..i]
        + [Bump(p, i, if bitstring[i] != 0 then -1 else 1)];
      i := i + 1;
    }
    assert BitstringNeighbours(p, bitstring)[..i] == BitstringNeighbours(p, bitstring);
  }

  // ---------------------------------------------------------------------------------------------
  // The `_fn` variants: fill a fresh int64 matrix Z row by row
  // ---------------------------------------------------------------------------------------------

  /** The rows of a matrix as a sequence of sequences. */
  ghost predicate RowsAre(Z: array2<int>, rows: seq<seq<int>>, upTo: nat)
    reads Z
  {
    upTo <= Z.Length0 && upTo <= |rows|
    && forall r, c | 0 <= r < upTo && 0 <= c < Z.Length1 :: |rows[r]| == Z.Length1 && Z[r, c] == rows[r][c]
  }

  /** `Z[r] = pivot`: copy the pivot into row r of Z. */
  method CopyRow(Z: array2<int>, r: nat, pivot: array<int>)
    requires r < Z.Length0 && Z.Length1 == pivot.Length
    modifies Z
    ensures forall c | 0 <= c < Z.Length1 :: Z[r, c] == pivot[c]
    ensures forall r', c | 0 <= r' < Z.Length0 && r' != r && 0 <= c < Z.Length1 :: Z[r', c] == old(Z[r', c])
  {
    var c := 0;
    while c < Z.Length1
      invariant 0 <= c <= Z.Length1
      invariant forall c' | 0 <= c' < c :: Z[r, c'] == pivot[c']
      invariant forall r', c' | 0 <= r' < Z.Length0 && r' != r && 0 <= c' < Z.Length1 :: Z[r', c'] == old(Z[r', c'])
    {
      Z[r, c] := pivot[c];
      c := c + 1;
    }
  }

  /** `all_neighbours_fn`: a 2n x n matrix whose row 2i is pivot + e_i and row 2i + 1 is pivot - e_i. */
  method AllNeighboursFn(pivot: array<int>) returns (Z: array2<int>)
    modifies pivot
    ensures fresh(Z) && Z.Length0 == 2 * pivot.Length && Z.Length1 == pivot.Length
    ensures RowsAre(Z, AllNeighbours(old(pivot[..])), Z.Length0)
    ensures pivot[..] == old(pivot[..])
  {
    ghost var p := pivot[..];
    Z := new int[2 * pivot.Length, pivot.Length]((_, _) => 0);
    var i := 0;
    while i < pivot.Length
      invariant 0 <= i <= pivot.Length && pivot[..] == p
      invariant RowsAre(Z, AllNeighbours(p), 2 * i)
    {
      pivot[i] := pivot[i] + 1;
      CopyRow(Z, 2 * i, pivot);
      assert pivot[..] == Bump(p, i, 1);
      pivot[i] := pivot[i] - 2;
      CopyRow(Z, 2 * i + 1, pivot);
      assert pivot[..] == Bump(p, i, -1);
      pivot[i] := pivot[i] + 1;
      assert pivot[..] == p;
      assert (2 * i) / 2 == i && (2 * i) % 2 == 0 && (2 * i + 1) / 2 == i && (2 * i + 1) % 2 == 1;
      i := i + 1;
    }
  }

  /** `lower_neighbors_fn`: an n x n matrix whose row i is pivot - e_i. */
  method LowerNeighboursFn(pivot: array<int>) returns (Z: array2<int>)
    modifies pivot
    ensures fresh(Z) && Z.Length0 == pivot.Length && Z.Length1 == pivot.Length
    ensures RowsAre(Z, LowerNeighbours(old(pivot[..])), Z.Length0)
    ensures pivot[..] == old(pivot[..])
  {
    ghost var p := pivot[..];
    Z := new int[pivot.Length, pivot.Length]((_, _) => 0);
    var i := 0;
    while i < pivot.Length
      invariant 0 <= i <= pivot.Length && pivot[..] == p
      invariant RowsAre(Z, LowerNeighbours(p), i)
    {
      pivot[i] := pivot[i] - 1;
      CopyRow(Z, i, pivot);
      assert pivot[..] == Bump(p, i, -1);
      pivot[i] := pivot[i] + 1;
      assert pivot[..] == p;
      i := i + 1;
    }
  }

  /** `upper_neighbors_fn` as written: its body is that of `lower_neighbors_fn` (pivot[i] is moved
    * down, not up), so row i is pivot - e_i (see `UpperNeighboursFnAsWrittenDiffers`). */
  method UpperNeighboursFnAsWritten(pivot: array<int>) returns (Z: array2<int>)
    modifies pivot
    ensures fresh(Z) && Z.Length0 == pivot.Length && Z.Length1 == pivot.Length
    ensures RowsAre(Z, LowerNeighbours(old(pivot[..])), Z.Length0)
    ensures pivot[..] == old(pivot[..])
  {
    Z := LowerNeighboursFn(pivot);
  }

  /** The rows `UpperNeighboursFnAsWritten` produces for the pivot [0] are [[-1]], while the upper
    * neighbours its doc-comment promises are [[1]]. */
  lemma UpperNeighboursFnAsWrittenDiffers()
    ensures LowerNeighbours([0]) == [[-1]]
    ensures UpperNeighbours([0]) == [[1]]
  {
    assert Bump([0], 0, -1) == [-1];
    assert Bump([0], 0, 1) == [1];
  }

  /** `upper_neighbors_fn` as intended: an n x n matrix whose row i is pivot + e_i, the rows
    * `upper_neighbors_gen` yields. */
  method UpperNeighboursFn(pivot: array<int>) returns (Z: array2<int>)
    modifies pivot
    ensures fresh(Z) && Z.Length0 == pivot.Length && Z.Length1 == pivot.Length
    ensures RowsAre(Z, UpperNeighbours(old(pivot[..])), Z.Length0)
    ensures pivot[..] == old(pivot[..])
  {
    ghost var p := pivot[..];
    Z := new int[pivot.Length, pivot.Length]((_, _) => 0);
    var i := 0;
    while i < pivot.Length
      invariant 0 <= i <= pivot.Length && pivot[..] == p
      invariant RowsAre(Z, UpperNeighbours(p), i)
    {
      pivot[i] := pivot[i] + 1;
      CopyRow(Z, i, pivot);
      assert pivot[..] == Bump(p, i, 1);
      pivot[i] := pivot[i] - 1;
      assert pivot[..] == p;
      i := i + 1;
    }
  }
}
