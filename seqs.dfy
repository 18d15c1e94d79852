/** Integer-sequence vocabulary used throughout: ranges, shifted copies, ascending complements,
  * distinctness, permutations of [0, n) and the ascending listing of a finite set. */
module Seqs {
  /** Python's `list(range(lo, hi))`. */
  function Range(lo: int, hi: int): (r: seq<int>)
    ensures |r| == if lo <= hi then hi - lo else 0
    ensures forall k | 0 <= k < |r| :: r[k] == lo + k
    decreases hi - lo
  {
    if lo >= hi then [] else [lo] + Range(lo + 1, hi)
  }

  /** `[x + n for x in s]`. */
  function Shift(s: seq<int>, n: int): (r: seq<int>)
    ensures |r| == |s| && forall k | 0 <= k < |s| :: r[k] == s[k] + n
  {
    seq(|s|, k requires 0 <= k < |s| => s[k] + n)
  }

  /** `[i for i in range(n) if i not in s]`, the ascending complement of `s` in [0, n). */
  function Complement(n: nat, s: seq<int>): (r: seq<int>)
    ensures |r| <= n && AllBelow(r, n)
  {
    if n == 0 then [] else Complement(n - 1, s) + (if (n - 1) in s then [] else [n - 1])
  }

  predicate Distinct<T(==)>(s: seq<T>)
  {
    forall i, j | 0 <= i < j < |s| :: s[i] != s[j]
  }

  predicate StrictlyIncreasing(s: seq<int>)
  {
    forall i, j | 0 <= i < j < |s| :: s[i] < s[j]
  }

  predicate AllBelow(s: seq<int>, n: int)
  {
    forall k | 0 <= k < |s| :: 0 <= s[k] < n
  }

  /** `s` lists every number of [0, n) exactly once. */
  predicate IsPermutation(s: seq<int>, n: nat)
  {
    AllBelow(s, n) && Distinct(s) && forall k | 0 <= k < n :: k in s
  }

  function RemoveAt<T>(s: seq<T>, i: nat): (r: seq<T>)
    requires i < |s|
    ensures |r| == |s| - 1
    ensures forall k | 0 <= k < |r| :: r[k] == if k < i then s[k] else s[k + 1]
  {
    s[..i] + s[i + 1..]
  }

  function Sum(s: seq<int>): int
  {
    if |s| == 0 then 0 else s[0] + Sum(s[1..])
  }

  function Max(s: seq<int>): (m: int)
    requires |s| > 0
    ensures m in s && forall k | 0 <= k < |s| :: s[k] <= m
  {
    if |s| == 1 then s[0] else var t := Max(s[1..]); if s[0] >= t then s[0] else t
  }

  function Elems<T>(s: seq<T>): set<T>
  {
    set x | x in s
  }

  lemma {:induction false} ComplementMembers(n: nat, s: seq<int>)
    ensures forall x :: x in Complement(n, s) <==> 0 <= x < n && x !in s
    ensures StrictlyIncreasing(Complement(n, s))
  {
    if n > 0 {
      ComplementMembers(n - 1, s);
      var c := Complement(n - 1, s);
      assert forall k | 0 <= k < |c| :: c[k] < n - 1 by {
        forall k | 0 <= k < |c| ensures c[k] < n - 1 { assert c[k] in c; }
      }
    }
  }

  lemma {:induction false} DistinctCard<T>(s: seq<T>)
    requires Distinct(s)
    ensures |Elems(s)| == |s|
  {
    if |s| > 0 {
      DistinctCard(s[1..]);
      assert Elems(s) == {s[0]} + Elems(s[1..]);
      assert s[0] !in Elems(s[1..]) by {
        forall k | 0 <= k < |s| - 1 ensures s[1..][k] != s[0] { assert s[k + 1] != s[0]; }
      }
    }
  }

  function IntervalSet(n: nat): set<int>
  {
    Elems(Range(0, n))
  }

  lemma IntervalMembers(n: nat)
    ensures forall x :: x in IntervalSet(n) <==> 0 <= x < n
  {
    forall x ensures x in IntervalSet(n) <==> 0 <= x < n {
      if 0 <= x < n { assert Range(0, n)[x] == x; }
    }
  }

  lemma {:induction false} IntervalCard(n: nat)
    ensures |IntervalSet(n)| == n
  {
    if n > 0 {
      IntervalCard(n - 1);
      IntervalMembers(n);
      IntervalMembers(n - 1);
      var smaller := IntervalSet(n - 1);
      assert IntervalSet(n) == smaller + {n - 1};
      assert n - 1 !in smaller;
      assert |smaller + {n - 1}| == |smaller| + 1;
    }
  }

  /** A permutation of [0, n) has exactly n entries. */
  lemma PermutationLength(s: seq<int>, n: nat)
    requires IsPermutation(s, n)
    ensures |s| == n
  {
    forall x ensures x in Elems(s) <==> x in IntervalSet(n) {
      if 0 <= x < n { assert Range(0, n)[x] == x; }
    }
    assert Elems(s) == IntervalSet(n);
    DistinctCard(s);
    IntervalCard(n);
  }

  /** A distinct sequence of numbers below n together with its ascending complement
    * holds every number of [0, n) once. */
  lemma ComplementPartition(n: nat, s: seq<int>)
    requires AllBelow(s, n) && Distinct(s)
    ensures IsPermutation(s + Complement(n, s), n)
    ensures |Complement(n, s)| == n - |s|
  {
    var c := Complement(n, s);
    ComplementMembers(n, s);
    var t := s + c;
    forall i, j | 0 <= i < j < |t| ensures t[i] != t[j] {
      if j < |s| {
      } else if i >= |s| {
        assert c[i - |s|] < c[j - |s|];
      } else {
        assert t[j] in c;
      }
    }
    forall k | 0 <= k < n ensures k in t {
      if k !in s { assert k in c; }
    }
    forall k | 0 <= k < |t| ensures 0 <= t[k] < n {
      if k >= |s| { assert t[k] in c; }
    }
    PermutationLength(t, n);
  }

  /** Inserts `x` into the strictly increasing `r`, unless it is already there. */
  function Insert(x: int, r: seq<int>): (t: seq<int>)
    requires StrictlyIncreasing(r)
    ensures StrictlyIncreasing(t)
    ensures forall y :: y in t <==> y == x || y in r
  {
    if |r| == 0 then [x]
    else if x < r[0] then [x] + r
    else if x == r[0] then r
    else
      var t := Insert(x, r[1..]);
      assert forall k | 0 <= k < |t| :: r[0] < t[k] by {
        forall k | 0 <= k < |t| ensures r[0] < t[k] {
          assert t[k] in t;
          if t[k] != x { assert t[k] in r[1..]; }
        }
      }
      [r[0]] + t
  }

  /** `sorted(set(s))`: the distinct entries of `s` in ascending order. */
  function SortedSet(s: seq<int>): (r: seq<int>)
    ensures StrictlyIncreasing(r)
    ensures forall y :: y in r <==> y in s
  {
    if |s| == 0 then [] else Insert(s[|s| - 1], SortedSet(s[..|s| - 1]))
  }

  /** `sorted(set(a) | set(b))`, the mode list of a sum of sparse blocks. */
  function SortedUnion(a: seq<int>, b: seq<int>): (r: seq<int>)
    ensures StrictlyIncreasing(r)
    ensures forall x :: x in r <==> x in a || x in b
  {
    SortedSet(a + b)
  }

  /** `[x for x in s if x in t]`. */
  function KeepIn(s: seq<int>, t: seq<int>): (r: seq<int>)
    ensures |r| <= |s| && forall x :: x in r <==> x in s && x in t
  {
    if |s| == 0 then [] else KeepIn(s[..|s| - 1], t) + (if s[|s| - 1] in t then [s[|s| - 1]] else [])
  }

  /** `[x for x in s if x not in t]`. */
  function DropIn(s: seq<int>, t: seq<int>): (r: seq<int>)
    ensures |r| <= |s| && forall x :: x in r <==> x in s && x !in t
  {
    if |s| == 0 then [] else DropIn(s[..|s| - 1], t) + (if s[|s| - 1] in t then [] else [s[|s| - 1]])
  }

  predicate Ascending(s: seq<int>)
  {
    forall i, j | 0 <= i < j < |s| :: s[i] <= s[j]
  }

  /** Inserts `x` into the ascending `r`, before the first larger entry. */
  function InsertAscending(x: int, r: seq<int>): (t: seq<int>)
    requires Ascending(r)
    ensures Ascending(t) && multiset(t) == multiset(r) + multiset{x}
  {
    if |r| == 0 then [x]
    else if x <= r[0] then [x] + r
    else
      var t := InsertAscending(x, r[1..]);
      assert r == [r[0]] + r[1..];
      assert forall k | 0 <= k < |t| :: r[0] <= t[k] by {
        forall k | 0 <= k < |t| ensures r[0] <= t[k] {
          assert t[k] in multiset(t);
          if t[k] != x {
            assert t[k] in multiset(r[1..]);
            assert t[k] in r[1..];
          }
        }
      }
      ConsAscending(r[0], t);
      assert multiset([r[0]] + t) == multiset{r[0]} + multiset(t);
      [r[0]] + t
  }

  lemma ConsAscending(h: int, t: seq<int>)
    requires Ascending(t) && forall k | 0 <= k < |t| :: h <= t[k]
    ensures Ascending([h] + t)
  {
    var s := [h] + t;
    forall i, j | 0 <= i < j < |s| ensures s[i] <= s[j] {
      assert s[j] == t[j - 1];
      if i > 0 { assert s[i] == t[i - 1]; }
    }
  }

  /** Python's `sorted(s)`: the entries of `s`, repetitions kept, in ascending order. */
  function Sorted(s: seq<int>): (r: seq<int>)
    ensures Ascending(r) && multiset(r) == multiset(s)
  {
    if |s| == 0 then []
    else
      assert s == s[..|s| - 1] + [s[|s| - 1]];
      InsertAscending(s[|s| - 1], Sorted(s[..|s| - 1]))
  }

  /** A strictly increasing sequence is determined by its members. */
  lemma {:induction false} StrictlyIncreasingUnique(a: seq<int>, b: seq<int>)
    requires StrictlyIncreasing(a) && StrictlyIncreasing(b)
    requires forall x :: x in a <==> x in b
    ensures a == b
  {
    assert |a| > 0 ==> a[0] in a && a[0] in b;
    assert |b| > 0 ==> b[0] in b && b[0] in a;
    if |a| > 0 && |b| > 0 {
      assert a[0] == b[0] by {
        assert a[0] in b && b[0] in a;
      }
      forall x
        ensures x in a[1..] <==> x in b[1..]
      {
        if x in a[1..] {
          assert x in b && x != b[0];
        }
        if x in b[1..] {
          assert x in a && x != a[0];
        }
      }
      StrictlyIncreasingUnique(a[1..], b[1..]);
      assert a == [a[0]] + a[1..] && b == [b[0]] + b[1..];
    }
  }

  /** The sorted union does not depend on the order of its operands. */
  lemma SortedUnionCommutes(a: seq<int>, b: seq<int>)
    ensures SortedUnion(a, b) == SortedUnion(b, a)
  {
    StrictlyIncreasingUnique(SortedUnion(a, b), SortedUnion(b, a));
  }

  /** The indices of a list of modes among n on both halves of a 2n-long axis list: the modes followed
    * by the modes shifted by n (the x then p quadratures, or the kets then the bras). */
  function Doubled(modes: seq<int>, n: nat): (r: seq<int>)
    ensures |r| == 2 * |modes|
    ensures forall k | 0 <= k < |modes| :: r[k] == modes[k]
    ensures forall k | |modes| <= k < 2 * |modes| :: r[k] == modes[k - |modes|] + n
  {
    modes + Shift(modes, n)
  }

  /** Where entry k of Doubled(a, n) + Doubled(c, n) comes from: half q (0 for the first, 1 for the
    * shifted copy) of the entry at position i of a ++ c; k is recovered from (q, i). */
  lemma DoubledSource(n: nat, a: seq<int>, c: seq<int>, k: int) returns (q: int, i: int)
    requires 0 <= k < 2 * (|a| + |c|)
    ensures 0 <= q < 2 && 0 <= i < |a| + |c|
    ensures (Doubled(a, n) + Doubled(c, n))[k] == (a + c)[i] + (if q == 0 then 0 else n)
    ensures k == if i < |a| then (if q == 0 then 0 else |a|) + i else 2 * |a| + (if q == 0 then 0 else |c|) + (i - |a|)
  {
    var m := |a|;
    var idx := Doubled(a, n) + Doubled(c, n);
    if k < m {
      q, i := 0, k;
    } else if k < 2 * m {
      q, i := 1, k - m;
    } else if k < 2 * m + |c| {
      q, i := 0, k - m;
      assert idx[k] == Doubled(c, n)[k - 2 * m];
    } else {
      q, i := 1, k - m - |c|;
      assert idx[k] == Doubled(c, n)[|c| + (k - 2 * m - |c|)];
    }
  }

  /** When a ++ c is a permutation of range(n), Doubled(a, n) + Doubled(c, n) lies in range(2n), is
    * distinct, and covers range(2n). */
  lemma DoubledInRange(n: nat, a: seq<int>, c: seq<int>)
    requires IsPermutation(a + c, n)
    ensures AllBelow(Doubled(a, n) + Doubled(c, n), 2 * n)
  {
    var idx := Doubled(a, n) + Doubled(c, n);
    forall k | 0 <= k < |idx| ensures 0 <= idx[k] < 2 * n {
      var q, i := DoubledSource(n, a, c, k);
      assert 0 <= (a + c)[i] < n;
    }
  }

  lemma DoubledDistinct(n: nat, a: seq<int>, c: seq<int>)
    requires IsPermutation(a + c, n)
    ensures Distinct(Doubled(a, n) + Doubled(c, n))
  {
    var s := a + c;
    var idx := Doubled(a, n) + Doubled(c, n);
    forall k, l | 0 <= k < l < |idx| ensures idx[k] != idx[l] {
      var q, i := DoubledSource(n, a, c, k);
      var r, j := DoubledSource(n, a, c, l);
      assert 0 <= s[i] < n && 0 <= s[j] < n;
      if q == r {
        assert i != j;
        assert s[i] != s[j];
      }
    }
  }

  lemma DoubledCovers(n: nat, a: seq<int>, c: seq<int>)
    requires IsPermutation(a + c, n)
    ensures forall x | 0 <= x < 2 * n :: x in Doubled(a, n) + Doubled(c, n)
  {
    var s := a + c;
    var m := |a|;
    var idx := Doubled(a, n) + Doubled(c, n);
    forall x | 0 <= x < 2 * n
      ensures x in idx
    {
      var y := if x < n then x else x - n;
      assert y in s;
      var i :| 0 <= i < |s| && s[i] == y;
      var q := if x < n then 0 else 1;
      var k := if i < m then (if q == 0 then 0 else m) + i else 2 * m + (if q == 0 then 0 else |c|) + (i - m);
      var q', i' := DoubledSource(n, a, c, k);
      assert q' == q && i' == i;
      assert idx[k] == x;
    }
  }

  /** For distinct modes a among range(n), the doubled modes followed by the doubled complement are
    * a permutation of range(2n). */
  lemma DoubledPartition(n: nat, a: seq<int>)
    requires AllBelow(a, n) && Distinct(a)
    ensures IsPermutation(Doubled(a, n) + Doubled(Complement(n, a), n), 2 * n)
  {
    var c := Complement(n, a);
    ComplementPartition(n, a);
    DoubledInRange(n, a, c);
    DoubledDistinct(n, a, c);
    DoubledCovers(n, a, c);
  }
}
