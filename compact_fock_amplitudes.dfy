/** Index scaffolding of the compact Fock-amplitude recurrence (mrmustard/math/compactFockAmplitudes.py):
  * photon-number compositions and their memo table, pivot encodings, the upper-triangle pair index,
  * the staggered permutation, the tuple-tail packers and the layered sweep, whose guards keep every
  * scratch-array access inside the allocated shapes. Amplitude values are not modelled: the sweep
  * records the index tuples it reads and writes. */
module CompactFockAmplitudes {
  import opened Wrappers
  import opened Seqs
  import Dense

  // ---------------------------------------------------------------------------------------------
  // Binomial table and level sizes
  // ---------------------------------------------------------------------------------------------

  /** The binomial coefficient, zero when n < 0 or n > m (as scipy's `binom` on integers). */
  function Binom(m: int, n: int): nat
    decreases m
  {
    if n < 0 then 0
    else if n == 0 then 1
    else if m <= 0 then 0
    else Binom(m - 1, n - 1) + Binom(m - 1, n)
  }

  lemma Pascal(m: int, n: int)
    requires m >= 1
    ensures Binom(m, n) == Binom(m - 1, n - 1) + Binom(m - 1, n)
  {
  }

  lemma {:induction false} BinomDiagonal(n: nat)
    ensures Binom(n, n) == 1
  {
    if n > 0 {
      BinomDiagonal(n - 1);
      BinomAbove(n - 1, n);
    }
  }

  lemma {:induction false} BinomAbove(m: nat, n: int)
    requires n > m
    ensures Binom(m, n) == 0
  {
    if m > 0 {
      BinomAbove(m - 1, n - 1);
      BinomAbove(m - 1, n);
    }
  }

  const TableSize := 60

  /** The BINOM table after its fill: 60 x 60 entries, entry (m, n) holding binom(m, n). */
  ghost predicate BinomTable(binom: array2<int>)
    reads binom
  {
    binom.Length0 == TableSize && binom.Length1 == TableSize &&
    forall m, n | 0 <= m < TableSize && 0 <= n < TableSize :: binom[m, n] == Binom(m, n)
  }

  /** The fill loop of `fock_representation_compact`. */
  method FillBinom() returns (binom: array2<int>)
    ensures fresh(binom) && BinomTable(binom)
  {
    binom := new int[TableSize, TableSize];
    var m := 0;
    while m < TableSize
      invariant 0 <= m <= TableSize
      invariant forall i, j | 0 <= i < m && 0 <= j < TableSize :: binom[i, j] == Binom(i, j)
    {
      FillBinomRow(binom, m);
      m := m + 1;
    }
  }

  method FillBinomRow(binom: array2<int>, m: nat)
    requires m < binom.Length0 && binom.Length1 == TableSize
    modifies binom
    ensures forall j | 0 <= j < TableSize :: binom[m, j] == Binom(m, j)
    ensures forall i, j | 0 <= i < binom.Length0 && i != m && 0 <= j < TableSize :: binom[i, j] == old(binom[i, j])
  {
    var n := 0;
    while n < TableSize
      invariant 0 <= n <= TableSize
      invariant forall i, j | 0 <= i < binom.Length0 && i != m && 0 <= j < TableSize :: binom[i, j] == old(binom[i, j])
      invariant forall j | 0 <= j < n :: binom[m, j] == Binom(m, j)
    {
      binom[m, n] := Binom(m, n);
      n := n + 1;
    }
  }

  /** `len_lvl`: the number of ways to spread N photons over M modes, read from the table. */
  function LenLvl(M: int, N: int, binom: array2<int>): (r: int)
    reads binom
    requires BinomTable(binom) && M >= 1 && N >= 0 && M - 1 + N < TableSize
    ensures r == Binom(M - 1 + N, N)
  {
    binom[M - 1 + N, N]
  }

  // ---------------------------------------------------------------------------------------------
  // Compositions (the rows returned by get_partitions)
  // ---------------------------------------------------------------------------------------------

  /** Prefixes every row of `sub` with n: the block `pivots[T:T+len] = [n] ++ sub`. */
  function Block(n: int, sub: seq<seq<int>>): (r: seq<seq<int>>)
    ensures |r| == |sub| && forall k | 0 <= k < |sub| :: r[k] == [n] + sub[k]
  {
    seq(|sub|, k requires 0 <= k < |sub| => [n] + sub[k])
  }

  /** The rows `get_partitions(M, N)` produces: one block per first entry n = 0..N. */
  function Compositions(M: int, N: int): seq<seq<int>>
    requires M >= 1 && N >= 0
    decreases M, 1, 0
  {
    if M == 1 then [[N]] else Level(M, N, N + 1)
  }

  /** The first k blocks of `Compositions(M, N)`, i.e. `pivots[:T]` after k rounds of the fill loop. */
  function Level(M: int, N: int, k: int): seq<seq<int>>
    requires M >= 2 && N >= 0 && 0 <= k <= N + 1
    decreases M, 0, k
  {
    if k == 0 then [] else Level(M, N, k - 1) + Block(k - 1, Compositions(M - 1, N - (k - 1)))
  }

  /** A row of M non-negative photon numbers summing to N. */
  predicate IsComposition(row: seq<int>, M: int, N: int)
  {
    |row| == M && (forall k | 0 <= k < |row| :: row[k] >= 0) && Sum(row) == N
  }

  /** Lexicographic order on rows. */
  predicate LexLess(a: seq<int>, b: seq<int>)
  {
    |a| > 0 && |b| > 0 && (a[0] < b[0] || (a[0] == b[0] && LexLess(a[1..], b[1..])))
  }

  lemma {:induction false} LexLessDiffers(a: seq<int>, b: seq<int>)
    requires LexLess(a, b)
    ensures a != b
  {
    if a[0] == b[0] {
      LexLessDiffers(a[1..], b[1..]);
    }
  }

  /** There are C(M-1+N, N) compositions of N into M parts. */
  lemma {:induction false} CompositionsCount(M: int, N: int)
    requires M >= 1 && N >= 0
    ensures |Compositions(M, N)| == Binom(M - 1 + N, N)
    decreases M, 1, 0
  {
    if M == 1 {
      BinomDiagonal(N);
    } else {
      LevelCount(M, N, N + 1);
    }
  }

  lemma {:induction false} LevelCount(M: int, N: int, k: int)
    requires M >= 2 && N >= 0 && 0 <= k <= N + 1
    ensures |Level(M, N, k)| + Binom(M - 1 + N - k, N - k) == Binom(M - 1 + N, N)
    decreases M, 0, k
  {
    if k > 0 {
      LevelCount(M, N, k - 1);
      CompositionsCount(M - 1, N - (k - 1));
      Pascal(M + N - k, N - k + 1);
    }
  }

  /** Every row of `get_partitions(M, N)` is a composition of N into M parts. */
  lemma {:induction false} CompositionsValid(M: int, N: int)
    requires M >= 1 && N >= 0
    ensures forall row | row in Compositions(M, N) :: IsComposition(row, M, N)
    decreases M, 1, 0
  {
    if M == 1 {
      assert Sum([N]) == N;
    } else {
      LevelValid(M, N, N + 1);
    }
  }

  lemma {:induction false} LevelValid(M: int, N: int, k: int)
    requires M >= 2 && N >= 0 && 0 <= k <= N + 1
    ensures forall row | row in Level(M, N, k) :: IsComposition(row, M, N) && row[0] < k
    decreases M, 0, k
  {
    if k > 0 {
      LevelValid(M, N, k - 1);
      var sub := Compositions(M - 1, N - (k - 1));
      CompositionsValid(M - 1, N - (k - 1));
      forall row | row in Block(k - 1, sub) ensures IsComposition(row, M, N) && row[0] < k {
        var j :| 0 <= j < |sub| && Block(k - 1, sub)[j] == row;
        assert sub[j] in sub;
        assert row[1..] == sub[j];
      }
    }
  }

  /** The rows come in strictly increasing lexicographic order, so they are pairwise distinct. */
  lemma {:induction false} CompositionsSorted(M: int, N: int)
    requires M >= 1 && N >= 0
    ensures forall i, j | 0 <= i < j < |Compositions(M, N)| ::
      LexLess(Compositions(M, N)[i], Compositions(M, N)[j])
    decreases M, 1, 0
  {
    if M > 1 {
      LevelSorted(M, N, N + 1);
    }
  }

  lemma {:induction false} LevelSorted(M: int, N: int, k: int)
    requires M >= 2 && N >= 0 && 0 <= k <= N + 1
    ensures forall i, j | 0 <= i < j < |Level(M, N, k)| :: LexLess(Level(M, N, k)[i], Level(M, N, k)[j])
    decreases M, 0, k
  {
    if k > 0 {
      LevelSorted(M, N, k - 1);
      LevelValid(M, N, k - 1);
      var prev := Level(M, N, k - 1);
      var sub := Compositions(M - 1, N - (k - 1));
      CompositionsSorted(M - 1, N - (k - 1));
      CompositionsValid(M - 1, N - (k - 1));
      var blk := Block(k - 1, sub);
      var all := prev + blk;
      forall i, j | 0 <= i < j < |all| ensures LexLess(all[i], all[j]) {
        if j < |prev| {
          assert all[i] == prev[i] && all[j] == prev[j];
        } else if i >= |prev| {
          var a, b := i - |prev|, j - |prev|;
          assert all[i] == [k - 1] + sub[a] && all[j] == [k - 1] + sub[b];
          assert all[i][1..] == sub[a] && all[j][1..] == sub[b];
        } else {
          assert all[i] == prev[i] && prev[i] in prev;
          assert all[j] == [k - 1] + sub[j - |prev|];
        }
      }
    }
  }

  /** Every composition of N into M parts is a row of `get_partitions(M, N)`. */
  lemma {:induction false} CompositionsComplete(M: int, N: int, row: seq<int>)
    requires M >= 1 && N >= 0 && IsComposition(row, M, N)
    ensures row in Compositions(M, N)
    decreases M
  {
    if M == 1 {
      assert row == [row[0]];
      assert Sum(row) == row[0] + Sum(row[1..]);
    } else {
      var n := row[0];
      var rest := row[1..];
      assert Sum(row) == n + Sum(rest);
      SumNonNegative(rest);
      assert IsComposition(rest, M - 1, N - n);
      CompositionsComplete(M - 1, N - n, rest);
      var j :| 0 <= j < |Compositions(M - 1, N - n)| && Compositions(M - 1, N - n)[j] == rest;
      assert row == [n] + rest;
      assert Block(n, Compositions(M - 1, N - n))[j] == row;
      LevelContains(M, N, n + 1, N + 1);
    }
  }

  lemma SumNonNegative(s: seq<int>)
    requires forall k | 0 <= k < |s| :: s[k] >= 0
    ensures Sum(s) >= 0
  {
    if |s| > 0 {
      SumNonNegative(s[1..]);
    }
  }

  /** Level k is a prefix of level k' >= k. */
  lemma {:induction false} LevelContains(M: int, N: int, k: int, k': int)
    requires M >= 2 && N >= 0 && 1 <= k <= k' <= N + 1
    ensures forall row | row in Block(k - 1, Compositions(M - 1, N - (k - 1))) :: row in Level(M, N, k')
    decreases k'
  {
    if k' > k {
      LevelContains(M, N, k, k' - 1);
    }
  }

  // ---------------------------------------------------------------------------------------------
  // The PARTITIONS memo and get_partitions
  // ---------------------------------------------------------------------------------------------

  /** The PARTITIONS dictionary: (M, N) mapped to the rows computed for it. Entries are only added. */
  class PartitionTable {
    var entries: map<(int, int), seq<seq<int>>>

    ghost predicate Valid()
      reads this
    {
      forall key | key in entries :: key.0 >= 1 && key.1 >= 0 && entries[key] == Compositions(key.0, key.1)
    }

    constructor ()
      ensures Valid() && entries == map[]
    {
      entries := map[];
    }

    /** `get_partitions(M, N, PARTITIONS, BINOM)`. The table read by `len_lvl` only reaches
      * M - 1 + N < 60; for M = 1 the table is not consulted. */
    method GetPartitions(M: int, N: int, binom: array2<int>) returns (rows: seq<seq<int>>)
      requires Valid() && BinomTable(binom)
      requires M >= 1 && N >= 0 && (M == 1 || M - 1 + N < TableSize)
      modifies this
      ensures Valid()
      ensures rows == Compositions(M, N)
      ensures forall key | key in old(entries) :: key in entries && entries[key] == old(entries)[key]
      ensures (M, N) in old(entries) ==> entries == old(entries)
      ensures M > 1 ==> (M, N) in entries
      decreases M, 1
    {
      if (M, N) in entries {
        return entries[(M, N)];
      }
      if M == 1 {
        return [[N]];
      }
      var T := 0;
      CompositionsCount(M, N);
      var pivots := new seq<int>[LenLvl(M, N, binom)];
      var n := 0;
      while n <= N
        invariant 0 <= n <= N + 1
        invariant Valid()
        invariant forall key | key in old(entries) :: key in entries && entries[key] == old(entries)[key]
        invariant pivots.Length == Binom(M - 1 + N, N)
        invariant T == |Level(M, N, n)| <= pivots.Length
        invariant pivots[..T] == Level(M, N, n)
      {
        T := FillRound(M, N, n, binom, pivots, T);
        n := n + 1;
      }
      rows := pivots[..];
      assert rows == pivots[..T];
      entries := entries[(M, N) := rows];
    }

    /** One round of the fill loop of `get_partitions(M, N)`: the rows of first entry n, from
      * `get_partitions(M - 1, N - n)`, written after the T rows filled so far. */
    method FillRound(M: int, N: int, n: int, binom: array2<int>, pivots: array<seq<int>>, T: int) returns (T': int)
      requires Valid() && BinomTable(binom)
      requires M >= 2 && 0 <= n <= N && M - 1 + N < TableSize
      requires pivots.Length == Binom(M - 1 + N, N) && T == |Level(M, N, n)| <= pivots.Length && pivots[..T] == Level(M, N, n)
      modifies this, pivots
      ensures Valid()
      ensures forall key | key in old(entries) :: key in entries && entries[key] == old(entries)[key]
      ensures T' == |Level(M, N, n + 1)| <= pivots.Length && pivots[..T'] == Level(M, N, n + 1)
      decreases M, 0
    {
      var len := LenLvl(M - 1, N - n, binom);
      var sub := GetPartitions(M - 1, N - n, binom);
      LevelStep(M, N, n, sub);
      WriteBlock(pivots, T, n, sub);
      T' := T + len;
    }
  }

  /** One round of the fill loop of `get_partitions` appends the block of first entry n, of
    * Binom(M - 2 + N - n, N - n) rows, and stays within the Binom(M - 1 + N, N) rows allocated. */
  lemma LevelStep(M: int, N: int, n: int, sub: seq<seq<int>>)
    requires M >= 2 && 0 <= n <= N && sub == Compositions(M - 1, N - n)
    ensures Level(M, N, n + 1) == Level(M, N, n) + Block(n, sub)
    ensures |sub| == Binom(M - 2 + N - n, N - n)
    ensures |Level(M, N, n + 1)| == |Level(M, N, n)| + |sub| <= Binom(M - 1 + N, N)
  {
    CompositionsCount(M - 1, N - n);
    LevelCount(M, N, n + 1);
  }

  /** `pivots[T:T+len, :1] = n; pivots[T:T+len, 1:] = sub`. */
  method WriteBlock(pivots: array<seq<int>>, T: nat, n: int, sub: seq<seq<int>>)
    requires T + |sub| <= pivots.Length
    modifies pivots
    ensures pivots[..T + |sub|] == old(pivots[..T]) + Block(n, sub)
  {
    var k := 0;
    while k < |sub|
      invariant 0 <= k <= |sub|
      invariant pivots[..T + k] == old(pivots[..T]) + Block(n, sub)[..k]
    {
      pivots[T + k] := [n] + sub[k];
      assert Block(n, sub)[..k + 1] == Block(n, sub)[..k] + [[n] + sub[k]];
      k := k + 1;
    }
    assert Block(n, sub)[..|sub|] == Block(n, sub);
  }

  // ---------------------------------------------------------------------------------------------
  // Pivot encodings
  // ---------------------------------------------------------------------------------------------

  /** The diagonal pivot a,a,b,b,c,c,... of params a,b,c,... */
  function DiagPivot(params: seq<int>): (p: seq<int>)
    ensures |p| == 2 * |params|
    ensures forall k | 0 <= k < |p| :: p[k] == params[k / 2]
  {
    seq(2 * |params|, k requires 0 <= k < 2 * |params| => params[k / 2])
  }

  /** The off-diagonal pivot: the diagonal one with the ket entry of mode d raised by one. */
  function OffDiagPivot(params: seq<int>, d: int): (p: seq<int>)
    requires 0 <= d < |params|
  {
    var diag := DiagPivot(params);
    diag[2 * d := diag[2 * d] + 1]
  }

  /** The off-diagonal pivot differs from the diagonal one at position 2d only, where it is one larger. */
  lemma OffDiagPivotShape(params: seq<int>, d: int)
    requires 0 <= d < |params|
    ensures |OffDiagPivot(params, d)| == 2 * |params|
    ensures OffDiagPivot(params, d)[2 * d] == DiagPivot(params)[2 * d] + 1
    ensures forall k | 0 <= k < 2 * |params| && k != 2 * d :: OffDiagPivot(params, d)[k] == DiagPivot(params)[k]
  {
  }

  /** `calc_diag_pivot`. */
  method CalcDiagPivot(params: seq<int>) returns (pivot: array<int>)
    ensures fresh(pivot) && pivot[..] == DiagPivot(params)
  {
    pivot := new int[2 * |params|](_ => 0);
    var i := 0;
    while i < |params|
      invariant 0 <= i <= |params|
      invariant forall k | 0 <= k < 2 * i :: pivot[k] == params[k / 2]
    {
      pivot[2 * i] := params[i];
      pivot[2 * i + 1] := params[i];
      i := i + 1;
    }
  }

  /** `calc_offDiag_pivot`. */
  method CalcOffDiagPivot(params: seq<int>, d: int) returns (pivot: array<int>)
    requires 0 <= d < |params|
    ensures fresh(pivot) && pivot[..] == OffDiagPivot(params, d)
  {
    pivot := CalcDiagPivot(params);
    ghost var diag := pivot[..];
    pivot[2 * d] := pivot[2 * d] + 1;
    assert pivot[..] == diag[2 * d := diag[2 * d] + 1];
  }

  // ---------------------------------------------------------------------------------------------
  // Upper-triangle pair index
  // ---------------------------------------------------------------------------------------------

  /** `np.hstack((0,), np.arange(2, M)[::-1])` = [0, M-1, M-2, ..., 2]. */
  function RowIncrements(M: int): (r: seq<int>)
    ensures |r| == if M >= 2 then M - 1 else 1
  {
    [0] + seq(if M >= 2 then M - 2 else 0, k => M - 1 - k)
  }

  /** The sum of the first k entries of s. */
  function PrefixSum(s: seq<int>, k: nat): int
    requires k <= |s|
  {
    if k == 0 then 0 else PrefixSum(s, k - 1) + s[k - 1]
  }

  /** `np.cumsum(s)`. */
  function CumSum(s: seq<int>): (r: seq<int>)
    ensures |r| == |s|
  {
    seq(|s|, k requires 0 <= k < |s| => PrefixSum(s, k + 1))
  }

  /** `index_above_diagonal(i0, i1, M)`; the source assumes i0 < i1. */
  function IndexAboveDiagonal(i0: int, i1: int, M: int): int
    requires 0 <= i0 < i1 < M
  {
    CumSum(RowIncrements(M))[i0] + i1 - i0 - 1
  }

  /** Number of pairs in the rows before row k: (M-1) + (M-2) + ... + (M-k). */
  function RowStart(M: int, k: nat): int
  {
    if k == 0 then 0 else RowStart(M, k - 1) + (M - k)
  }

  lemma {:induction false} CumSumIsRowStart(M: int, k: nat)
    requires M >= 2 && k < M - 1
    ensures CumSum(RowIncrements(M))[k] == RowStart(M, k)
  {
    var s := RowIncrements(M);
    if k == 0 {
      assert PrefixSum(s, 1) == s[0];
    } else {
      CumSumIsRowStart(M, k - 1);
      assert PrefixSum(s, k + 1) == PrefixSum(s, k) + s[k];
    }
  }

  lemma {:induction false} RowStartClosedForm(M: int, k: nat)
    ensures 2 * RowStart(M, k) == k * (2 * M - k - 1)
  {
    if k > 0 {
      RowStartClosedForm(M, k - 1);
      assert k * (2 * M - k - 1) == (k - 1) * (2 * M - k) + 2 * (M - k);
    }
  }

  /** The number of pairs i0 < i1 < M, the length of arr11's second axis. */
  function PairCount(M: int): int
  {
    M * (M - 1) / 2
  }

  lemma PairCountIsRowStart(M: int)
    requires M >= 1
    ensures PairCount(M) == RowStart(M, M - 1)
  {
    RowStartClosedForm(M, M - 1);
    assert (M - 1) * (2 * M - (M - 1) - 1) == M * (M - 1);
  }

  lemma {:induction false} RowStartMonotone(M: int, k: nat, k': nat)
    requires k <= k' <= M - 1
    ensures RowStart(M, k) + (M - 1 - k) <= RowStart(M, k') || k == k'
    ensures RowStart(M, k) <= RowStart(M, k')
    decreases k' - k
  {
    if k < k' {
      RowStartMonotone(M, k, k' - 1);
    }
  }

  /** The pair index lies in [0, M(M-1)/2): it addresses arr11's second axis. */
  lemma PairIndexInRange(i0: int, i1: int, M: int)
    requires 0 <= i0 < i1 < M
    ensures 0 <= IndexAboveDiagonal(i0, i1, M) < PairCount(M)
  {
    CumSumIsRowStart(M, i0);
    RowStartMonotone(M, i0, M - 1);
    RowStartMonotone(M, 0, i0);
    PairCountIsRowStart(M);
  }

  /** Row-major order: (i0, i1) before (j0, j1) lexicographically gives a smaller index, so
    * distinct pairs get distinct indices. */
  lemma PairIndexRowMajor(i0: int, i1: int, j0: int, j1: int, M: int)
    requires 0 <= i0 < i1 < M && 0 <= j0 < j1 < M
    requires i0 < j0 || (i0 == j0 && i1 < j1)
    ensures IndexAboveDiagonal(i0, i1, M) < IndexAboveDiagonal(j0, j1, M)
  {
    CumSumIsRowStart(M, i0);
    CumSumIsRowStart(M, j0);
    RowStartMonotone(M, i0, j0);
  }

  /** Every index of [0, M(M-1)/2) is the index of some pair. */
  lemma PairIndexOnto(p: int, M: int)
    requires M >= 0 && 0 <= p < PairCount(M)
    ensures exists i0, i1 | 0 <= i0 < i1 < M :: IndexAboveDiagonal(i0, i1, M) == p
  {
    PairCountIsRowStart(M);
    var i0 := FindRow(p, M, 0);
    CumSumIsRowStart(M, i0);
    var i1 := p - RowStart(M, i0) + i0 + 1;
    assert IndexAboveDiagonal(i0, i1, M) == p;
  }

  lemma {:induction false} FindRow(p: int, M: int, k: nat) returns (i0: nat)
    requires M >= 2 && k < M - 1 && RowStart(M, k) <= p < RowStart(M, M - 1)
    ensures k <= i0 < M - 1 && RowStart(M, i0) <= p < RowStart(M, i0) + (M - 1 - i0)
    decreases M - k
  {
    if p < RowStart(M, k) + (M - 1 - k) {
      i0 := k;
    } else {
      assert RowStart(M, k + 1) == RowStart(M, k) + (M - 1 - k);
      if k + 1 == M - 1 {
        assert false;
      }
      i0 := FindRow(p, M, k + 1);
    }
  }

  // ---------------------------------------------------------------------------------------------
  // Staggered range
  // ---------------------------------------------------------------------------------------------

  /** [1, 0, 3, 2, ..., 2M-1, 2M-2]. */
  function Staggered(M: nat): (r: seq<int>)
    ensures |r| == 2 * M
  {
    seq(2 * M, k requires 0 <= k < 2 * M => if k % 2 == 0 then k + 1 else k - 1)
  }

  /** The staggered range swaps 2k and 2k+1: a permutation of [0, 2M) that is its own inverse. */
  lemma StaggeredInvolution(M: nat)
    ensures IsPermutation(Staggered(M), 2 * M)
    ensures forall k | 0 <= k < 2 * M :: Staggered(M)[Staggered(M)[k]] == k
  {
    var s := Staggered(M);
    forall k | 0 <= k < 2 * M ensures k in s {
      assert s[s[k]] == k;
    }
  }

  /** `calc_staggered_range_2M`. */
  method CalcStaggeredRange(M: nat) returns (A: array<int>)
    ensures fresh(A) && A[..] == Staggered(M)
  {
    A := new int[2 * M](_ => 0);
    var i := 1;
    while i < 2 * M
      invariant 1 <= i <= 2 * M + 1 && i % 2 == 1
      invariant forall k | 0 <= k < i - 1 && k % 2 == 0 :: A[k] == k + 1
    {
      A[i - 1] := i;
      i := i + 2;
    }
    i := 0;
    while i < 2 * M
      invariant 0 <= i <= 2 * M && i % 2 == 0
      invariant forall k | 0 <= k < 2 * M && k % 2 == 0 :: A[k] == k + 1
      invariant forall k | 0 <= k < i && k % 2 == 1 :: A[k] == k - 1
    {
      A[i + 1] := i;
      i := i + 2;
    }
  }

  // ---------------------------------------------------------------------------------------------
  // Tuple-tail packers (tuple_setitem is an ordinary sequence update)
  // ---------------------------------------------------------------------------------------------

  /** params without the entries at positions i0 and i1 (i0 < i1). */
  function RemovePair(s: seq<int>, i0: nat, i1: nat): (r: seq<int>)
    requires i0 < i1 < |s|
    ensures |r| == |s| - 2
    ensures forall k | 0 <= k < |r| :: r[k] == if k < i0 then s[k] else if k < i1 - 1 then s[k + 1] else s[k + 2]
  {
    s[..i0] + s[i0 + 1..i1] + s[i1 + 1..]
  }

  /** `fill_tuple_tail_Array0`: positions 2..M+1 take params; the rest of the tuple is kept. */
  method FillTupleTailArray0(tup: seq<int>, params: seq<int>, M: nat) returns (r: seq<int>)
    requires |tup| >= M + 2 && |params| >= M
    ensures r == tup[..2] + params[..M] + tup[M + 2..]
  {
    r := tup;
    var t := 2;
    while t < M + 2
      invariant 2 <= t <= M + 2 && |r| == |tup|
      invariant r == tup[..2] + params[..t - 2] + tup[t..]
    {
      r := r[t := params[t - 2]];
      assert params[..t - 1] == params[..t - 2] + [params[t - 2]];
      t := t + 1;
    }
  }

  /** `fill_tuple_tail_Array2`: positions 3..M+1 take params without entry idx0, in order. */
  method FillTupleTailArray2(tup: seq<int>, idx0: int, params: seq<int>, M: nat) returns (r: seq<int>)
    requires |tup| >= M + 2 && |params| >= M && 0 <= idx0 < M
    ensures r == tup[..3] + RemoveAt(params[..M], idx0) + tup[M + 2..]
  {
    r := tup;
    var x := 0;
    while x < M
      invariant 0 <= x <= M && |r| == |tup|
      invariant forall k | 0 <= k < |r| ::
                  r[k] == if 3 <= k < x + 3 && k - 3 < idx0 then params[k - 3]
                          else if idx0 + 3 <= k < x + 2 then params[k - 2]
                          else tup[k]
    {
      if x < idx0 {
        r := r[x + 3 := params[x]];
      } else if x > idx0 {
        r := r[x + 2 := params[x]];
      }
      x := x + 1;
    }
    assert r == tup[..3] + RemoveAt(params[..M], idx0) + tup[M + 2..];
  }

  /** `fill_tuple_tail_Array11`: positions 4..M+1 take params without entries idx0 and idx1, in order. */
  method FillTupleTailArray11(tup: seq<int>, idx0: int, idx1: int, params: seq<int>, M: nat) returns (r: seq<int>)
    requires |tup| >= M + 2 && |params| >= M && 0 <= idx0 < idx1 < M
    ensures r == tup[..4] + RemovePair(params[..M], idx0, idx1) + tup[M + 2..]
  {
    r := tup;
    var x := 0;
    while x < M
      invariant 0 <= x <= M && |r| == |tup|
      invariant forall k | 0 <= k < |r| ::
                  r[k] == if 4 <= k < x + 4 && k - 4 < idx0 then params[k - 4]
                          else if idx0 + 4 <= k < x + 3 && k - 3 < idx1 then params[k - 3]
                          else if idx1 + 3 <= k < x + 2 then params[k - 2]
                          else tup[k]
    {
      if x < idx0 {
        r := r[x + 4 := params[x]];
      } else if idx0 < x && x < idx1 {
        r := r[x + 3 := params[x]];
      } else if idx1 < x {
        r := r[x + 2 := params[x]];
      }
      x := x + 1;
    }
    assert r == tup[..4] + RemovePair(params[..M], idx0, idx1) + tup[M + 2..];
  }

  // ---------------------------------------------------------------------------------------------
  // Scratch arrays and the sweep (indices only)
  // ---------------------------------------------------------------------------------------------

  /** Python's `[x] * n`. */
  function Repeat(x: int, n: int): (r: seq<int>)
    ensures |r| == (if n > 0 then n else 0) && forall k | 0 <= k < |r| :: r[k] == x
  {
    seq(if n > 0 then n else 0, _ => x)
  }

  function Zeros(n: nat): (r: seq<int>)
    ensures |r| == n && forall k | 0 <= k < n :: r[k] == 0
  {
    seq(n, _ => 0)
  }

  /** The four scratch arrays of the recurrence. */
  datatype Scratch = Arr0 | Arr1 | Arr2 | Arr11

  /** The shape `fock_representation_compact` asks numpy to allocate for each scratch array. */
  function ScratchShape(target: Scratch, M: nat, cutoff: int): seq<int>
  {
    match target
    case Arr0 => [1, 1] + Repeat(cutoff, M)
    case Arr2 => [1, M, cutoff - 2] + Repeat(cutoff, M - 1)
    case Arr11 =>
      if M == 1 then [1, 1, 1]
      else [3, M * (M - 1) / 2, cutoff - 1, cutoff - 1] + Repeat(cutoff, M - 2)
    case Arr1 => [1, 2 * M, cutoff - 1] + Repeat(cutoff, M - 1)
  }

  predicate NonNegativeShape(shape: seq<int>)
  {
    forall k | 0 <= k < |shape| :: shape[k] >= 0
  }

  /** `np.zeros` raises ValueError on a negative dimension. */
  function AllocateScratch(M: nat, cutoff: int): (o: Outcome)
  {
    if NonNegativeShape(ScratchShape(Arr0, M, cutoff)) && NonNegativeShape(ScratchShape(Arr2, M, cutoff))
       && NonNegativeShape(ScratchShape(Arr11, M, cutoff)) && NonNegativeShape(ScratchShape(Arr1, M, cutoff))
    then Pass
    else Fail(ValueError)
  }

  /** The scratch arrays can be allocated exactly when cutoff >= 2 (arr2 has an axis of length cutoff-2). */
  lemma AllocateScratchSucceeds(M: nat, cutoff: int)
    ensures AllocateScratch(M, cutoff) == Pass <==> cutoff >= 2
  {
    if cutoff < 2 {
      assert ScratchShape(Arr2, M, cutoff)[2] == cutoff - 2;
    } else {
      assert M * (M - 1) >= 0 by {
        if M >= 1 { assert M * (M - 1) == (M - 1) * M; }
      }
    }
  }

  /** The arrays are indexed by tuples of length M+2 (the zero tuple's length). */
  lemma ScratchRank(M: nat, cutoff: int, target: Scratch)
    requires M >= 1
    ensures |ScratchShape(target, M, cutoff)| == M + 2
  {
  }

  /** One read or write of a scratch array at an index tuple. */
  datatype Access = Read(target: Scratch, index: seq<int>) | Write(target: Scratch, index: seq<int>)

  predicate Fits(index: seq<int>, shape: seq<int>)
  {
    |index| == |shape| && forall k | 0 <= k < |index| :: 0 <= index[k] < shape[k]
  }

  predicate InBounds(a: Access, M: nat, cutoff: int)
  {
    Fits(a.index, ScratchShape(a.target, M, cutoff))
  }

  lemma FitsConcat(head: seq<int>, headShape: seq<int>, tail: seq<int>, cutoff: int)
    requires Fits(head, headShape)
    requires forall k | 0 <= k < |tail| :: 0 <= tail[k] < cutoff
    ensures Fits(head + tail, headShape + Repeat(cutoff, |tail|))
  {
  }

  /** Index of arr1 or arr2: [0, a, b] followed by params without entry i. */
  function Array2Index(a: int, b: int, i: nat, params: seq<int>): (r: seq<int>)
    requires i < |params|
  {
    [0, a, b] + RemoveAt(params, i)
  }

  /** Index of arr11: [s, a, b, c] followed by params without entries i0 < i1. */
  function Array11Index(s: int, a: int, b: int, c: int, i0: nat, i1: nat, params: seq<int>): (r: seq<int>)
    requires i0 < i1 < |params|
  {
    [s, a, b, c] + RemovePair(params, i0, i1)
  }

  /** Photon numbers of a row the sweep uses: M entries in [0, cutoff). */
  predicate Admissible(params: seq<int>, M: nat, cutoff: int)
  {
    |params| == M && forall k | 0 <= k < M :: 0 <= params[k] < cutoff
  }

  lemma Array2IndexFits(target: Scratch, a: int, b: int, i: nat, params: seq<int>, M: nat, cutoff: int)
    requires M >= 1 && i < M && Admissible(params, M, cutoff)
    requires target == Arr1 || target == Arr2
    requires 0 <= a < ScratchShape(target, M, cutoff)[1] && 0 <= b < ScratchShape(target, M, cutoff)[2]
    ensures InBounds(Read(target, Array2Index(a, b, i, params)), M, cutoff)
    ensures InBounds(Write(target, Array2Index(a, b, i, params)), M, cutoff)
  {
    var sh := ScratchShape(target, M, cutoff);
    FitsConcat([0, a, b], sh[..3], RemoveAt(params, i), cutoff);
    assert sh == sh[..3] + Repeat(cutoff, M - 1);
  }

  lemma Array11IndexFits(s: int, a: int, b: int, c: int, i0: nat, i1: nat, params: seq<int>, M: nat, cutoff: int)
    requires i0 < i1 < M && Admissible(params, M, cutoff)
    requires 0 <= s < 3 && 0 <= a < PairCount(M) && 0 <= b < cutoff - 1 && 0 <= c < cutoff - 1
    ensures InBounds(Read(Arr11, Array11Index(s, a, b, c, i0, i1, params)), M, cutoff)
    ensures InBounds(Write(Arr11, Array11Index(s, a, b, c, i0, i1, params)), M, cutoff)
  {
    var sh := ScratchShape(Arr11, M, cutoff);
    FitsConcat([s, a, b, c], sh[..4], RemovePair(params, i0, i1), cutoff);
    assert sh == sh[..4] + Repeat(cutoff, M - 2);
  }

  /** The index tuple `fill_tuple_tail_Array2(zero_tuple[1] = a, [2] = b, i, params, M)`. */
  method PackArray2(M: nat, a: int, b: int, i: nat, params: seq<int>) returns (r: seq<int>)
    requires i < M && |params| == M
    ensures r == Array2Index(a, b, i, params)
  {
    var tup := Zeros(M + 2)[1 := a][2 := b];
    r := FillTupleTailArray2(tup, i, params, M);
    assert tup[..3] == [0, a, b] && tup[M + 2..] == [] && params[..M] == params;
  }

  /** The index tuple `fill_tuple_tail_Array11(zero_tuple[1] = a, [2] = b, [3] = c, i0, i1, params, M)`. */
  method PackArray11(M: nat, a: int, b: int, c: int, i0: nat, i1: nat, params: seq<int>) returns (r: seq<int>)
    requires i0 < i1 < M && |params| == M
    ensures r == Array11Index(0, a, b, c, i0, i1, params)
  {
    var tup := Zeros(M + 2)[1 := a][2 := b][3 := c];
    r := FillTupleTailArray11(tup, i0, i1, params, M);
    assert tup[..4] == [0, a, b, c] && tup[M + 2..] == [] && params[..M] == params;
  }

  /** The index tuple `fill_tuple_tail_Array0(zero_tuple, params, M)`. */
  method PackArray0(M: nat, params: seq<int>) returns (r: seq<int>)
    requires |params| == M
    ensures r == [0, 0] + params
  {
    var tup := Zeros(M + 2);
    r := FillTupleTailArray0(tup, params, M);
    assert tup[..2] == [0, 0] && tup[M + 2..] == [] && params[..M] == params;
  }

  lemma Array0IndexFits(params: seq<int>, M: nat, cutoff: int)
    requires Admissible(params, M, cutoff)
    ensures InBounds(Read(Arr0, [0, 0] + params), M, cutoff)
  {
    FitsConcat([0, 0], [1, 1], params, cutoff);
  }

  /** The accesses of `use_diag_pivot`: the pivot read from arr0, reads of arr1 behind the guard
    * params[i//2] > 0 and writes of arr1 behind the guard params[i//2] + 1 < cutoff, in source order.
    * Every access is in bounds and only arr1 is written. */
  method UseDiagPivot(M: nat, cutoff: int, params: seq<int>, stag: array<int>) returns (log: seq<Access>)
    requires M >= 1 && Admissible(params, M, cutoff)
    requires stag.Length == 2 * M && forall k | 0 <= k < 2 * M :: 0 <= stag[k] < 2 * M
    ensures |log| > 0 && log[0] == Read(Arr0, [0, 0] + params)
    ensures forall a | a in log :: InBounds(a, M, cutoff)
    ensures forall a | a in log :: a.Write? ==> a.target == Arr1
  {
    var readGB := PackArray0(M, params);
    Array0IndexFits(params, M, cutoff);
    log := [Read(Arr0, readGB)];
    var i := 0;
    while i < 2 * M
      invariant 0 <= i <= 2 * M && |log| > 0 && log[0] == Read(Arr0, [0, 0] + params)
      invariant forall a | a in log :: InBounds(a, M, cutoff) && (a.Write? ==> a.target == Arr1)
    {
      if params[i / 2] > 0 {
        var read := PackArray2(M, stag[i], params[i / 2] - 1, i / 2, params);
        Array2IndexFits(Arr1, stag[i], params[i / 2] - 1, i / 2, params, M, cutoff);
        log := log + [Read(Arr1, read)];
      }
      i := i + 1;
    }
    i := 0;
    while i < 2 * M
      invariant 0 <= i <= 2 * M && |log| > 0 && log[0] == Read(Arr0, [0, 0] + params)
      invariant forall a | a in log :: InBounds(a, M, cutoff) && (a.Write? ==> a.target == Arr1)
    {
      if params[i / 2] + 1 < cutoff {
        var write := PackArray2(M, i, params[i / 2], i / 2, params);
        Array2IndexFits(Arr1, i, params[i / 2], i / 2, params, M, cutoff);
        log := log + [Write(Arr1, write)];
      }
      i := i + 1;
    }
  }

  /** The accesses of `use_offDiag_pivot` for mode d (params[d] < cutoff - 1): the pivot read from arr1,
    * reads of arr0, arr2 and arr11 and guarded writes of arr0, arr2 and arr11, in source order.
    * Every access is in bounds and arr1 is never written. */
  method UseOffDiagPivot(M: nat, cutoff: int, params: seq<int>, d: nat) returns (log: seq<Access>)
    requires d < M && Admissible(params, M, cutoff) && params[d] < cutoff - 1
    ensures |log| >= 2 && log[0] == Read(Arr1, Array2Index(2 * d, params[d], d, params))
    ensures log[1] == Read(Arr0, [0, 0] + params)
    ensures forall a | a in log :: InBounds(a, M, cutoff)
    ensures forall a | a in log :: a.Write? ==> a.target != Arr1
  {
    var readGB := PackArray2(M, 2 * d, params[d], d, params);
    Array2IndexFits(Arr1, 2 * d, params[d], d, params, M, cutoff);
    var read0 := PackArray0(M, params);
    Array0IndexFits(params, M, cutoff);
    var head := [Read(Arr1, readGB), Read(Arr0, read0)];
    var reads2 := OffDiagArr2Read(M, cutoff, params, d);
    var reads11 := OffDiagArr11Reads(M, cutoff, params, d);
    var writes02 := OffDiagArr0Arr2Writes(M, cutoff, params, d);
    var writes11 := OffDiagArr11Writes(M, cutoff, params, d);
    Arr11Safe(reads11, false, M, cutoff);
    Arr11Safe(writes11, true, M, cutoff);
    SafeConcat(head, reads2, M, cutoff);
    SafeConcat(head + reads2, reads11, M, cutoff);
    SafeConcat(head + reads2 + reads11, writes02, M, cutoff);
    SafeConcat(head + reads2 + reads11 + writes02, writes11, M, cutoff);
    log := head + reads2 + reads11 + writes02 + writes11;
  }

  /** Every access is in bounds and none writes arr1. */
  predicate OffDiagSafe(log: seq<Access>, M: nat, cutoff: int)
  {
    forall a | a in log :: InBounds(a, M, cutoff) && (a.Write? ==> a.target != Arr1)
  }

  lemma SafeConcat(x: seq<Access>, y: seq<Access>, M: nat, cutoff: int)
    requires OffDiagSafe(x, M, cutoff) && OffDiagSafe(y, M, cutoff)
    ensures OffDiagSafe(x + y, M, cutoff)
  {
  }

  lemma Arr11Safe(log: seq<Access>, write: bool, M: nat, cutoff: int)
    requires AllArr11(log, write, M, cutoff)
    ensures OffDiagSafe(log, M, cutoff)
  {
  }

  /** The arr2 read of `use_offDiag_pivot`, behind params[d] > 0. */
  method OffDiagArr2Read(M: nat, cutoff: int, params: seq<int>, d: nat) returns (log: seq<Access>)
    requires d < M && Admissible(params, M, cutoff) && params[d] < cutoff - 1
    ensures OffDiagSafe(log, M, cutoff)
    ensures forall a | a in log :: a.Read? && a.target == Arr2
  {
    log := [];
    if params[d] > 0 {
      var read := PackArray2(M, d, params[d] - 1, d, params);
      Array2IndexFits(Arr2, d, params[d] - 1, d, params, M, cutoff);
      log := [Read(Arr2, read)];
    }
  }

  /** The arr0 write of `use_offDiag_pivot` (only while every earlier mode is 0) and the arr2 write
    * (behind params[d] + 2 < cutoff). */
  method OffDiagArr0Arr2Writes(M: nat, cutoff: int, params: seq<int>, d: nat) returns (log: seq<Access>)
    requires d < M && Admissible(params, M, cutoff) && params[d] < cutoff - 1
    ensures OffDiagSafe(log, M, cutoff)
    ensures forall a | a in log :: a.Write? && (a.target == Arr0 || a.target == Arr2)
    ensures (exists a | a in log :: a.target == Arr0) <==> forall k | 0 <= k < d :: params[k] == 0
    ensures forall a | a in log :: a.target == Arr0 ==> a.index == ([0, 0] + params)[2 + d := params[d] + 1]
  {
    log := [];
    if d == 0 || forall k | 0 <= k < d :: params[k] == 0 {
      var read0 := PackArray0(M, params);
      var write0 := read0[2 + d := params[d] + 1];
      Array0WriteFits(params, d, M, cutoff);
      log := [Write(Arr0, write0)];
    }
    if params[d] + 2 < cutoff {
      var write := PackArray2(M, d, params[d], d, params);
      Array2IndexFits(Arr2, d, params[d], d, params, M, cutoff);
      log := log + [Write(Arr2, write)];
    }
  }

  lemma Array0WriteFits(params: seq<int>, d: nat, M: nat, cutoff: int)
    requires d < M && Admissible(params, M, cutoff) && params[d] < cutoff - 1
    ensures InBounds(Write(Arr0, ([0, 0] + params)[2 + d := params[d] + 1]), M, cutoff)
  {
    FitsConcat([0, 0], [1, 1], params[d := params[d] + 1], cutoff);
    assert ([0, 0] + params)[2 + d := params[d] + 1] == [0, 0] + params[d := params[d] + 1];
  }

  predicate AllArr11(log: seq<Access>, write: bool, M: nat, cutoff: int)
  {
    forall a | a in log :: a.Write? == write && a.target == Arr11 && InBounds(a, M, cutoff)
  }

  /** One arr11 access at `Array11Index(s, p, b, c, i0, i1)` of a pair (i0, i1) containing mode d. */
  method Arr11Access(write: bool, s: int, b: int, c: int, i0: nat, i1: nat, params: seq<int>, M: nat, cutoff: int)
    returns (a: Access)
    requires i0 < i1 < M && Admissible(params, M, cutoff)
    requires 0 <= s < 3 && 0 <= b < cutoff - 1 && 0 <= c < cutoff - 1
    ensures AllArr11([a], write, M, cutoff)
    ensures a.index == Array11Index(s, IndexAboveDiagonal(i0, i1, M), b, c, i0, i1, params)
  {
    var p := IndexAboveDiagonal(i0, i1, M);
    PairIndexInRange(i0, i1, M);
    var tup := PackArray11(M, p, b, c, i0, i1, params);
    Array11IndexFits(s, p, b, c, i0, i1, params, M, cutoff);
    var idx := if s == 0 then tup else tup[0 := s];
    assert idx == Array11Index(s, p, b, c, i0, i1, params);
    a := if write then Write(Arr11, idx) else Read(Arr11, idx);
  }

  /** The two arr11 read loops of `use_offDiag_pivot` (partners i > d, then i < d), behind params[i] > 0. */
  method OffDiagArr11Reads(M: nat, cutoff: int, params: seq<int>, d: nat) returns (log: seq<Access>)
    requires d < M && Admissible(params, M, cutoff) && params[d] < cutoff - 1
    ensures AllArr11(log, false, M, cutoff)
  {
    log := [];
    var i := d + 1;
    while i < M
      invariant d + 1 <= i <= M || i == d + 1
      invariant AllArr11(log, false, M, cutoff)
    {
      if params[i] > 0 {
        var green := Arr11Access(false, 1, params[d], params[i] - 1, d, i, params, M, cutoff);
        var red := Arr11Access(false, 0, params[d], params[i] - 1, d, i, params, M, cutoff);
        log := log + [green, red];
      }
      i := i + 1;
    }
    i := 0;
    while i < d
      invariant 0 <= i <= d
      invariant AllArr11(log, false, M, cutoff)
    {
      if params[i] > 0 {
        var blue := Arr11Access(false, 2, params[i] - 1, params[d], i, d, params, M, cutoff);
        var red := Arr11Access(false, 0, params[i] - 1, params[d], i, d, params, M, cutoff);
        log := log + [blue, red];
      }
      i := i + 1;
    }
  }

  /** The two arr11 write loops of `use_offDiag_pivot` (partners i > d, then i < d), behind params[i] + 1 < cutoff. */
  method OffDiagArr11Writes(M: nat, cutoff: int, params: seq<int>, d: nat) returns (log: seq<Access>)
    requires d < M && Admissible(params, M, cutoff) && params[d] < cutoff - 1
    ensures AllArr11(log, true, M, cutoff)
  {
    log := [];
    var i := d + 1;
    while i < M
      invariant d + 1 <= i <= M || i == d + 1
      invariant AllArr11(log, true, M, cutoff)
    {
      if params[i] + 1 < cutoff {
        var red := Arr11Access(true, 0, params[d], params[i], d, i, params, M, cutoff);
        var green := Arr11Access(true, 1, params[d], params[i], d, i, params, M, cutoff);
        log := log + [red, green];
      }
      i := i + 1;
    }
    i := 0;
    while i < d
      invariant 0 <= i <= d
      invariant AllArr11(log, true, M, cutoff)
    {
      if params[i] + 1 < cutoff {
        var blue := Arr11Access(true, 2, params[i], params[d], i, d, params, M, cutoff);
        log := log + [blue];
      }
      i := i + 1;
    }
  }

  // ---------------------------------------------------------------------------------------------
  // The sweep: fock_representation_compact_NUMBA and fock_representation_compact
  // ---------------------------------------------------------------------------------------------

  /** Safety of a whole sweep log: every access is in bounds of the allocated scratch arrays. */
  predicate SweepSafe(log: seq<Access>, M: nat, cutoff: int)
  {
    forall a | a in log :: InBounds(a, M, cutoff)
  }

  lemma SweepSafeConcat(x: seq<Access>, y: seq<Access>, M: nat, cutoff: int)
    requires SweepSafe(x, M, cutoff) && SweepSafe(y, M, cutoff)
    ensures SweepSafe(x + y, M, cutoff)
  {
  }

  /** One pivot of the sweep: the diagonal pivot, then the off-diagonal pivot of every mode d with
    * params[d] < cutoff - 1. */
  method SweepPivot(M: nat, cutoff: int, params: seq<int>, stag: array<int>) returns (log: seq<Access>)
    requires M >= 1 && Admissible(params, M, cutoff)
    requires stag.Length == 2 * M && forall k | 0 <= k < 2 * M :: 0 <= stag[k] < 2 * M
    ensures |log| > 0 && log[0] == Read(Arr0, [0, 0] + params)
    ensures SweepSafe(log, M, cutoff)
  {
    log := UseDiagPivot(M, cutoff, params, stag);
    var d := 0;
    while d < M
      invariant 0 <= d <= M && |log| > 0 && log[0] == Read(Arr0, [0, 0] + params)
      invariant SweepSafe(log, M, cutoff)
    {
      if params[d] < cutoff - 1 {
        var off := UseOffDiagPivot(M, cutoff, params, d);
        SweepSafeConcat(log, off, M, cutoff);
        log := log + off;
      }
      d := d + 1;
    }
  }

  /** One level of the sweep: the rows of `get_partitions` whose largest entry is below the cutoff
    * are visited, in order. */
  method SweepLevel(M: nat, cutoff: int, rows: seq<seq<int>>, N: nat, stag: array<int>)
    returns (log: seq<Access>, visited: seq<seq<int>>)
    requires M >= 1 && forall row | row in rows :: IsComposition(row, M, N)
    requires stag.Length == 2 * M && forall k | 0 <= k < 2 * M :: 0 <= stag[k] < 2 * M
    ensures SweepSafe(log, M, cutoff)
    ensures forall p :: p in visited <==> p in rows && |p| > 0 && Max(p) < cutoff
  {
    log := [];
    visited := [];
    var j := 0;
    while j < |rows|
      invariant 0 <= j <= |rows| && SweepSafe(log, M, cutoff)
      invariant forall p :: p in visited <==> p in rows[..j] && |p| > 0 && Max(p) < cutoff
    {
      log, visited := SweepRow(M, cutoff, rows, N, stag, j, log, visited);
      j := j + 1;
    }
    assert rows[..j] == rows;
  }

  /** Row `j` of a level: visited, with its pivot's accesses appended, when its largest entry is
    * below the cutoff, and skipped otherwise. */
  method SweepRow(M: nat, cutoff: int, rows: seq<seq<int>>, N: nat, stag: array<int>, j: nat,
                  log: seq<Access>, visited: seq<seq<int>>)
    returns (log': seq<Access>, visited': seq<seq<int>>)
    requires M >= 1 && forall row | row in rows :: IsComposition(row, M, N)
    requires stag.Length == 2 * M && forall k | 0 <= k < 2 * M :: 0 <= stag[k] < 2 * M
    requires j < |rows| && SweepSafe(log, M, cutoff)
    requires forall p :: p in visited <==> p in rows[..j] && |p| > 0 && Max(p) < cutoff
    ensures SweepSafe(log', M, cutoff)
    ensures forall p :: p in visited' <==> p in rows[..j + 1] && |p| > 0 && Max(p) < cutoff
  {
    var params := rows[j];
    assert IsComposition(params, M, N);
    assert rows[..j + 1] == rows[..j] + [params];
    log', visited' := log, visited;
    if Max(params) < cutoff {
      var pl := SweepPivot(M, cutoff, params, stag);
      SweepSafeConcat(log, pl, M, cutoff);
      log' := log + pl;
      visited' := visited + [params];
    }
  }

  /** A pivot is visited by level N exactly when it is a composition of N with every entry below
    * the cutoff. */
  lemma LevelVisits(M: nat, N: nat, cutoff: int, p: seq<int>)
    requires M >= 1
    ensures (p in Compositions(M, N) && |p| > 0 && Max(p) < cutoff) <==> (Admissible(p, M, cutoff) && Sum(p) == N)
  {
    CompositionsValid(M, N);
    if Admissible(p, M, cutoff) && Sum(p) == N {
      CompositionsComplete(M, N, p);
    }
  }

  lemma VisitedStep(visited: seq<seq<int>>, level: seq<seq<int>>, M: nat, count: nat, cutoff: int)
    requires M >= 1
    requires forall p :: p in visited <==> Admissible(p, M, cutoff) && 0 <= Sum(p) < count
    requires forall p :: p in level <==> p in Compositions(M, count) && |p| > 0 && Max(p) < cutoff
    ensures forall p :: p in visited + level <==> Admissible(p, M, cutoff) && 0 <= Sum(p) < count + 1
  {
    forall p
      ensures p in visited + level <==> Admissible(p, M, cutoff) && 0 <= Sum(p) < count + 1
    {
      LevelVisits(M, count, cutoff, p);
    }
  }

  /** The memo table is large enough for every level the sweep asks for. */
  lemma LevelFits(M: nat, cutoff: int, count: nat)
    requires M >= 1 && count < (cutoff - 1) * M && (M <= 1 || cutoff * M <= TableSize + 1)
    ensures M == 1 || M - 1 + count < TableSize
  {
    assert (cutoff - 1) * M == cutoff * M - M;
  }

  /** Level `count` of the sweep, appended to the log and the visited pivots of the levels before
    * it; its rows come from the partition memo, which stays valid. */
  method SweepCount(M: nat, cutoff: int, table: PartitionTable, binom: array2<int>, count: nat, stag: array<int>,
                    log: seq<Access>, visited: seq<seq<int>>)
    returns (log': seq<Access>, visited': seq<seq<int>>)
    requires table.Valid() && BinomTable(binom) && M >= 1 && (M == 1 || M - 1 + count < TableSize)
    requires stag.Length == 2 * M && forall k | 0 <= k < 2 * M :: 0 <= stag[k] < 2 * M
    requires |log| > 0 && SweepSafe(log, M, cutoff)
    requires forall p :: p in visited <==> Admissible(p, M, cutoff) && 0 <= Sum(p) < count
    modifies table
    ensures table.Valid() && SweepSafe(log', M, cutoff)
    ensures |log'| > 0 && log'[0] == log[0]
    ensures forall p :: p in visited' <==> Admissible(p, M, cutoff) && 0 <= Sum(p) < count + 1
  {
    var rows := table.GetPartitions(M, count, binom);
    CompositionsValid(M, count);
    var levelLog, levelVisited := SweepLevel(M, cutoff, rows, count, stag);
    VisitedStep(visited, levelVisited, M, count, cutoff);
    SweepSafeConcat(log, levelLog, M, cutoff);
    log' := log + levelLog;
    visited' := visited + levelVisited;
  }

  /** Every admissible pivot has a weight of at least 0. */
  lemma AdmissibleWeights(M: nat, cutoff: int)
    ensures forall p | Admissible(p, M, cutoff) :: Sum(p) >= 0
  {
    forall p | Admissible(p, M, cutoff)
      ensures Sum(p) >= 0
    {
      SumNonNegative(p);
    }
  }

  /** `fock_representation_compact_NUMBA`: arr0's origin is written with G0, then every level
    * count < (cutoff - 1) * M is swept. Every access is in bounds of the arrays `AllocateScratch`
    * allocates, and the pivots visited are exactly the admissible ones of weight below
    * (cutoff - 1) * M. */
  method FockRepresentationCompactNumba(M: nat, cutoff: int, table: PartitionTable, binom: array2<int>)
    returns (log: seq<Access>, visited: seq<seq<int>>)
    requires table.Valid() && BinomTable(binom) && cutoff >= 2
    requires M <= 1 || cutoff * M <= TableSize + 1
    modifies table
    ensures table.Valid()
    ensures |log| > 0 && log[0] == Write(Arr0, Zeros(M + 2))
    ensures SweepSafe(log, M, cutoff)
    ensures forall p :: p in visited <==> Admissible(p, M, cutoff) && Sum(p) < (cutoff - 1) * M
  {
    assert Fits(Zeros(M + 2), ScratchShape(Arr0, M, cutoff));
    log := [Write(Arr0, Zeros(M + 2))];
    visited := [];
    var stag := CalcStaggeredRange(M);
    StaggeredInvolution(M);
    assert forall k | 0 <= k < 2 * M :: stag[k] == Staggered(M)[k];
    var count := 0;
    while count < (cutoff - 1) * M
      invariant 0 <= count && (M >= 1 || count == 0) && table.Valid()
      invariant |log| > 0 && log[0] == Write(Arr0, Zeros(M + 2)) && SweepSafe(log, M, cutoff)
      invariant forall p :: p in visited <==> Admissible(p, M, cutoff) && 0 <= Sum(p) < count
      invariant count <= (cutoff - 1) * M || count == 0
      invariant stag.Length == 2 * M && forall k | 0 <= k < 2 * M :: 0 <= stag[k] < 2 * M
    {
      LevelFits(M, cutoff, count);
      log, visited := SweepCount(M, cutoff, table, binom, count, stag, log, visited);
      count := count + 1;
    }
    AdmissibleWeights(M, cutoff);
  }

  /** `fock_representation_compact`: allocate the binomial table, the empty PARTITIONS memo and the
    * four scratch arrays, then sweep. A cutoff below 2 gives arr2 a negative dimension, which numpy
    * rejects with a ValueError. */
  method FockRepresentationCompact(M: nat, cutoff: int) returns (r: Result<seq<Access>>)
    requires M <= 1 || cutoff * M <= TableSize + 1
    ensures r.Err? <==> cutoff < 2
    ensures r.Err? ==> r.error == ValueError
    ensures r.Ok? ==> |r.value| > 0 && r.value[0] == Write(Arr0, Zeros(M + 2)) && SweepSafe(r.value, M, cutoff)
  {
    AllocateScratchSucceeds(M, cutoff);
    if AllocateScratch(M, cutoff) != Pass {
      return Err(ValueError);
    }
    var binom := FillBinom();
    var table := new PartitionTable();
    var log, _ := FockRepresentationCompactNumba(M, cutoff, table, binom);
    r := Ok(log);
  }
}
