/**
 * The device side of the sparse-CSC times dense product, C = alpha*A*B + beta*C,
 * where A is a dense M x K column-major matrix with leading dimension lda,
 * B is a K x N sparse matrix stored in CSC form and C is dense M x N with
 * leading dimension ldc (mcscmnn_general_device).
 *
 * The kernel is modelled one lane group at a time. A lane group is W = 8
 * consecutive threads: its lanes share one row group (rows rg*W .. rg*W+7,
 * one row per lane) and walk the columns lg, lg + nwf, lg + 2*nwf, ... For
 * every column the lanes stage the column's entries W at a time into shared
 * slots (row index and alpha*value, padded with (0, 0) past the column end),
 * then every lane whose row is below M multiplies the staged slots with its
 * row of A. The parallel grid is run as nested loops over row groups and
 * lane groups; lane lock-step is a loop over the W lanes.
 */
module McscmDevice {
  import opened IndexArith
  import opened RocsparseTypes

  /** Lane-group width (SUB_WF_SIZE) and thread-block size (MCSCMNN_DIM). */
  const W: nat := 8
  const BlockSize: nat := 256

  /** Everything mcscmnn_general_device reads. Values are exact integers. */
  datatype CscProblem = CscProblem(
    M: int, N: int, K: int,
    alpha: int, A: seq<int>, lda: int,
    colPtr: seq<int>, rowInd: seq<int>, val: seq<int>,
    beta: int, ldc: int, base: int)

  /** The dimensions the host template guarantees before it launches the
      kernel: sizes are non-negative and both leading dimensions are at least
      max(1, M). */
  predicate DimsOk(p: CscProblem)
  {
    p.M >= 0 && p.N >= 0 && p.K >= 0 && p.lda >= MinLd(p.M) && p.ldc >= MinLd(p.M)
  }

  /** The caller's contract on the buffers, which the library never checks:
      A holds an M x K column-major matrix, the CSC arrays describe N columns
      whose shifted row indices lie in [0, K). */
  predicate BuffersOk(p: CscProblem)
  {
    && (p.K == 0 || (p.K - 1) * p.lda + p.M <= |p.A|)
    && |p.colPtr| == p.N + 1 && |p.val| == |p.rowInd|
    && (forall c :: 0 <= c < p.N ==> ColumnRangeOk(p, c))
    && (forall j :: 0 <= j < |p.rowInd| ==> 0 <= p.rowInd[j] - p.base < p.K)
  }

  predicate WellFormed(p: CscProblem)
  {
    DimsOk(p) && BuffersOk(p)
  }

  /** Column c's shifted pointers delimit a range of entries. */
  predicate ColumnRangeOk(p: CscProblem, c: int)
    requires 0 <= c && c + 1 < |p.colPtr|
  {
    0 <= p.colPtr[c] - p.base <= p.colPtr[c + 1] - p.base <= |p.rowInd|
  }

  /** The entries of column c are those in [colPtr[c] - base, colPtr[c+1] - base). */
  lemma ColumnRange(p: CscProblem, c: int)
    requires WellFormed(p) && 0 <= c < p.N
    ensures 0 <= p.colPtr[c] - p.base <= p.colPtr[c + 1] - p.base <= |p.rowInd|
  {
    assert ColumnRangeOk(p, c);
  }

  /** C is large enough for N columns of stride ldc with M rows each. */
  predicate CFits(p: CscProblem, cLen: int)
  {
    p.N == 0 || (p.N - 1) * p.ldc + p.M <= cLen
  }

  /** Entry (row, r) of the dense operand lies inside A. */
  lemma DenseIndexInBounds(p: CscProblem, row: int, r: int)
    requires WellFormed(p) && 0 <= row < p.M && 0 <= r < p.K
    ensures 0 <= row + r * p.lda < |p.A|
  {
    MulMono(0, r, p.lda);
    MulMono(r, p.K - 1, p.lda);
  }

  /** The contribution of sparse entry j to output row `row`. */
  function Term(p: CscProblem, row: int, j: int): int
    requires WellFormed(p) && 0 <= row < p.M && 0 <= j < |p.rowInd|
  {
    DenseIndexInBounds(p, row, p.rowInd[j] - p.base);
    p.alpha * p.val[j] * p.A[row + (p.rowInd[j] - p.base) * p.lda]
  }

  /** The sum of the contributions of entries lo .. hi-1, accumulated in
      increasing entry order. */
  function ColSum(p: CscProblem, row: int, lo: int, hi: int): int
    requires WellFormed(p) && 0 <= row < p.M && 0 <= lo <= hi <= |p.rowInd|
    decreases hi - lo
  {
    if hi == lo then 0 else ColSum(p, row, lo, hi - 1) + Term(p, row, hi - 1)
  }

  /** The mathematical value of (alpha * A * B)[row, col]: the sum over the
      entries of column col. */
  function ColumnValue(p: CscProblem, row: int, col: int): int
    requires WellFormed(p) && 0 <= row < p.M && 0 <= col < p.N
  {
    ColumnRange(p, col);
    ColSum(p, row, p.colPtr[col] - p.base, p.colPtr[col + 1] - p.base)
  }

  /** The value written to C[row + col*ldc]: beta == 0 overwrites without
      reading the old value, otherwise beta*old + sum. */
  function NewValue(p: CscProblem, old_c: int, row: int, col: int): int
    requires WellFormed(p) && 0 <= row < p.M && 0 <= col < p.N
  {
    if p.beta == 0 then ColumnValue(p, row, col)
    else p.beta * old_c + ColumnValue(p, row, col)
  }

  /** The row of the output cell that offset o of C belongs to. */
  function RowOf(p: CscProblem, o: int): (r: int)
    requires WellFormed(p) && o >= 0
    ensures 0 <= r < p.ldc
  {
    o % p.ldc
  }

  /** The column of the output cell that offset o of C belongs to. */
  function ColOf(p: CscProblem, o: int): (c: int)
    requires WellFormed(p) && o >= 0
    ensures c >= 0 && o == RowOf(p, o) + c * p.ldc
  {
    DivModSplit(o, p.ldc);
    o / p.ldc
  }

  /** Offset o of C belongs to output cell (o % ldc, o / ldc), and that cell
      is written when its row is below M and below `rows` and its column is
      below N. */
  predicate Covered(p: CscProblem, o: int, rows: int)
    requires WellFormed(p) && o >= 0
  {
    ColOf(p, o) < p.N && RowOf(p, o) < p.M && RowOf(p, o) < rows
  }

  /** The whole C after the kernel ran over the first `rows` rows. */
  function Expected(p: CscProblem, c: seq<int>, rows: int): (r: seq<int>)
    requires WellFormed(p)
    ensures |r| == |c|
  {
    seq(|c|, o requires 0 <= o < |c| =>
      if Covered(p, o, rows) then NewValue(p, c[o], RowOf(p, o), ColOf(p, o)) else c[o])
  }

  // ---------------------------------------------------------------------
  // Properties of the specification
  // ---------------------------------------------------------------------

  /** Splitting an entry range at any point splits the sum. This is why the
      chunked accumulation (W entries at a time) equals the plain column sum. */
  lemma {:induction false} ColSumSplit(p: CscProblem, row: int, lo: int, mid: int, hi: int)
    requires WellFormed(p) && 0 <= row < p.M && 0 <= lo <= mid <= hi <= |p.rowInd|
    ensures ColSum(p, row, lo, mid) + ColSum(p, row, mid, hi) == ColSum(p, row, lo, hi)
    decreases hi - mid
  {
    if hi != mid {
      ColSumSplit(p, row, lo, mid, hi - 1);
    }
  }

  /** Output cell (row, col) sits at offset row + col*ldc, inside C, and that
      offset decodes back to (row, col); distinct cells therefore never share
      an offset. */
  lemma CellOffset(p: CscProblem, cLen: int, row: int, col: int)
    requires WellFormed(p) && CFits(p, cLen) && 0 <= row < p.M && 0 <= col < p.N
    ensures 0 <= row + col * p.ldc < cLen
    ensures RowOf(p, row + col * p.ldc) == row
    ensures ColOf(p, row + col * p.ldc) == col
  {
    MulMono(0, col, p.ldc);
    MulMono(col, p.N - 1, p.ldc);
    DivModOf(col, p.ldc, row);
  }

  /** Writes of distinct output cells go to distinct offsets. */
  lemma CellsDisjoint(p: CscProblem, cLen: int, r1: int, c1: int, r2: int, c2: int)
    requires WellFormed(p) && CFits(p, cLen)
    requires 0 <= r1 < p.M && 0 <= c1 < p.N && 0 <= r2 < p.M && 0 <= c2 < p.N
    requires (r1, c1) != (r2, c2)
    ensures r1 + c1 * p.ldc != r2 + c2 * p.ldc
  {
    CellOffset(p, cLen, r1, c1);
    CellOffset(p, cLen, r2, c2);
  }

  /** With beta == 0 every written cell holds the plain column sum and does
      not depend on what C held before. */
  lemma BetaZeroIgnoresOldC(p: CscProblem, c1: seq<int>, c2: seq<int>, rows: int, o: int)
    requires WellFormed(p) && p.beta == 0 && |c1| == |c2| && 0 <= o < |c1|
    requires Covered(p, o, rows)
    ensures Expected(p, c1, rows)[o] == Expected(p, c2, rows)[o]
                                     == ColumnValue(p, RowOf(p, o), ColOf(p, o))
  {
  }

  /** With alpha == 0 every column sum is zero. */
  lemma {:induction false} AlphaZeroColSum(p: CscProblem, row: int, lo: int, hi: int)
    requires WellFormed(p) && p.alpha == 0 && 0 <= row < p.M && 0 <= lo <= hi <= |p.rowInd|
    ensures ColSum(p, row, lo, hi) == 0
    decreases hi - lo
  {
    if hi != lo {
      AlphaZeroColSum(p, row, lo, hi - 1);
    }
  }

  /** alpha == 0 and beta == 1 make the product a no-op on C: the early
      return of the device-pointer kernel and of the host path loses nothing. */
  lemma AlphaZeroBetaOneIsIdentity(p: CscProblem, c: seq<int>, rows: int)
    requires WellFormed(p) && p.alpha == 0 && p.beta == 1
    ensures Expected(p, c, rows) == c
  {
    forall o | 0 <= o < |c|
      ensures Expected(p, c, rows)[o] == c[o]
    {
      if Covered(p, o, rows) {
        var row, col := RowOf(p, o), ColOf(p, o);
        ColumnRange(p, col);
        AlphaZeroColSum(p, row, p.colPtr[col] - p.base, p.colPtr[col + 1] - p.base);
      }
    }
  }

  /** The same matrix re-encoded with base 1: every column pointer and row
      index is one larger. The kernel subtracts the base from both, so the
      shifted pointers and row indices it works with do not change, and
      neither does anything else it reads. */
  function Rebase1(p: CscProblem): (q: CscProblem)
    requires p.base == 0
    ensures q.base == 1 && |q.colPtr| == |p.colPtr| && |q.rowInd| == |p.rowInd|
    ensures forall c :: 0 <= c < |p.colPtr| ==> q.colPtr[c] - q.base == p.colPtr[c] - p.base
    ensures forall j :: 0 <= j < |p.rowInd| ==> q.rowInd[j] - q.base == p.rowInd[j] - p.base
    ensures q.(base := 0, colPtr := p.colPtr, rowInd := p.rowInd) == p
  {
    p.(base := 1,
       colPtr := seq(|p.colPtr|, c requires 0 <= c < |p.colPtr| => p.colPtr[c] + 1),
       rowInd := seq(|p.rowInd|, j requires 0 <= j < |p.rowInd| => p.rowInd[j] + 1))
  }

  lemma {:induction false} RebaseColSum(p: CscProblem, row: int, lo: int, hi: int)
    requires WellFormed(p) && p.base == 0 && WellFormed(Rebase1(p))
    requires 0 <= row < p.M && 0 <= lo <= hi <= |p.rowInd|
    ensures ColSum(Rebase1(p), row, lo, hi) == ColSum(p, row, lo, hi)
    decreases hi - lo
  {
    if hi != lo {
      RebaseColSum(p, row, lo, hi - 1);
    }
  }

  /** Index-base independence: a well-formed base-0 matrix has a well-formed
      base-1 re-encoding, and the two produce the same C. */
  lemma BaseIndependence(p: CscProblem, c: seq<int>, rows: int)
    requires WellFormed(p) && p.base == 0
    ensures WellFormed(Rebase1(p))
    ensures Expected(Rebase1(p), c, rows) == Expected(p, c, rows)
  {
    var q := Rebase1(p);
    assert WellFormed(q) by {
      forall c | 0 <= c < q.N
        ensures ColumnRangeOk(q, c)
      {
        assert ColumnRangeOk(p, c);
        assert q.colPtr[c] - q.base == p.colPtr[c] - p.base;
        assert q.colPtr[c + 1] - q.base == p.colPtr[c + 1] - p.base;
      }
    }
    forall o | 0 <= o < |c|
      ensures Expected(q, c, rows)[o] == Expected(p, c, rows)[o]
    {
      if Covered(p, o, rows) {
        var row, col := RowOf(p, o), ColOf(p, o);
        ColumnRange(p, col);
        RebaseColSum(p, row, p.colPtr[col] - p.base, p.colPtr[col + 1] - p.base);
      }
    }
  }

  /** The strided column loop: column col (for 0 <= col) is visited by lane
      group col % nwf, as its (col / nwf)-th column, and by no other lane
      group or iteration. */
  lemma ColumnOwner(col: int, nwf: int, lg: int, t: int)
    requires nwf > 0 && col >= 0 && 0 <= lg < nwf && t >= 0
    ensures col == lg + t * nwf <==> (lg == col % nwf && t == col / nwf)
  {
    DivModSplit(col, nwf);
    if col == lg + t * nwf {
      DivModOf(t, nwf, lg);
    }
  }

  // ---------------------------------------------------------------------
  // The kernel
  // ---------------------------------------------------------------------

  /** What lane `lid` stages into the shared row slot for the chunk that
      starts at entry j: the shifted row index, or 0 past the column end. */
  function StagedRow(p: CscProblem, j: int, lid: int, colEnd: int): int
    requires WellFormed(p) && 0 <= j && 0 <= lid && colEnd <= |p.rowInd|
  {
    if j + lid < colEnd then p.rowInd[j + lid] - p.base else 0
  }

  /** What lane `lid` stages into the shared value slot: alpha*val, or 0. */
  function StagedVal(p: CscProblem, j: int, lid: int, colEnd: int): int
    requires WellFormed(p) && 0 <= j && 0 <= lid && colEnd <= |p.rowInd|
  {
    if j + lid < colEnd then p.alpha * p.val[j + lid] else 0
  }

  /** The W lanes stage one chunk of the column into the shared slots. */
  method StageChunk(p: CscProblem, j: int, colEnd: int, shRow: array<int>, shVal: array<int>)
    requires WellFormed(p) && 0 <= j && colEnd <= |p.rowInd|
    requires shRow.Length == W && shVal.Length == W && shRow != shVal
    modifies shRow, shVal
    ensures forall lid :: 0 <= lid < W ==>
      shRow[lid] == StagedRow(p, j, lid, colEnd) && shVal[lid] == StagedVal(p, j, lid, colEnd)
  {
    for lid := 0 to W
      invariant forall l :: 0 <= l < lid ==>
        shRow[l] == StagedRow(p, j, l, colEnd) && shVal[l] == StagedVal(p, j, l, colEnd)
    {
      var k := j + lid;
      shRow[lid] := if k < colEnd then p.rowInd[k] - p.base else 0;
      shVal[lid] := if k < colEnd then p.alpha * p.val[k] else 0;
    }
  }

  /** One lane multiplies the staged chunk [j, j+W) with its row of A. A lane
      whose row is at or beyond M does nothing; padded slots add 0, so the
      chunk adds exactly the entries in [j, min(j+W, colEnd)). */
  method AccumulateLane(p: CscProblem, j: int, colEnd: int, shRow: array<int>, shVal: array<int>,
                        rowA: int, sum0: int) returns (sum: int)
    requires WellFormed(p) && 0 <= j < colEnd <= |p.rowInd| && rowA >= 0
    requires shRow.Length == W && shVal.Length == W
    requires forall lid :: 0 <= lid < W ==>
      shRow[lid] == StagedRow(p, j, lid, colEnd) && shVal[lid] == StagedVal(p, j, lid, colEnd)
    ensures rowA < p.M ==>
      sum == sum0 + ColSum(p, rowA, j, if j + W < colEnd then j + W else colEnd)
    ensures rowA >= p.M ==> sum == sum0
  {
    sum := sum0;
    var i := 0;
    while i < W && rowA < p.M
      invariant 0 <= i <= W
      invariant rowA < p.M ==>
        sum == sum0 + ColSum(p, rowA, j, if j + i < colEnd then j + i else colEnd)
      invariant rowA >= p.M ==> sum == sum0
    {
      var r := shRow[i];
      assert 0 <= r < p.K by {
        assert 0 <= p.rowInd[j] - p.base < p.K;
      }
      DenseIndexInBounds(p, rowA, r);
      sum := shVal[i] * p.A[rowA + r * p.lda] + sum;
      i := i + 1;
    }
  }

  /** Every lane of the row group adds the staged chunk to its running sum. */
  method AccumulateChunk(p: CscProblem, rg: int, j: int, colEnd: int,
                         shRow: array<int>, shVal: array<int>, sums: array<int>)
    requires WellFormed(p) && 0 <= j < colEnd <= |p.rowInd| && rg >= 0
    requires shRow.Length == W && shVal.Length == W && sums.Length == W
    requires sums != shRow && sums != shVal
    requires forall lid :: 0 <= lid < W ==>
      shRow[lid] == StagedRow(p, j, lid, colEnd) && shVal[lid] == StagedVal(p, j, lid, colEnd)
    modifies sums
    ensures forall lid :: 0 <= lid < W ==>
      sums[lid] == if rg * W + lid < p.M
                   then old(sums[lid]) + ColSum(p, rg * W + lid, j, if j + W < colEnd then j + W else colEnd)
                   else old(sums[lid])
  {
    for lid := 0 to W
      invariant forall l :: 0 <= l < W ==>
        sums[l] == if l < lid && rg * W + l < p.M
                   then old(sums[l]) + ColSum(p, rg * W + l, j, if j + W < colEnd then j + W else colEnd)
                   else old(sums[l])
    {
      sums[lid] := AccumulateLane(p, j, colEnd, shRow, shVal, rg * W + lid, sums[lid]);
    }
  }

  /** The running sum of a lane of row group rg after the chunk loop: the
      column value for rows below M, and 0 (nothing accumulated) otherwise. */
  function LaneResult(p: CscProblem, rg: int, lid: int, col: int): int
    requires WellFormed(p) && rg >= 0 && 0 <= lid && 0 <= col < p.N
  {
    if rg * W + lid < p.M then ColumnValue(p, rg * W + lid, col) else 0
  }

  /** The chunk loop of one column, `for j = colStart; j < colEnd; j += W`,
      run by the W lanes of row group rg in lock-step: stage W entries,
      then let every lane accumulate them. The chunked, zero-padded sum of
      each lane equals the plain column sum. */
  method ColumnSums(p: CscProblem, rg: int, col: int) returns (sums: seq<int>)
    requires WellFormed(p) && rg >= 0 && 0 <= col < p.N
    ensures |sums| == W
    ensures forall lid :: 0 <= lid < W ==> sums[lid] == LaneResult(p, rg, lid, col)
  {
    ColumnRange(p, col);
    var colStart := p.colPtr[col] - p.base;
    var colEnd := p.colPtr[col + 1] - p.base;
    var shRow := new int[W];
    var shVal := new int[W];
    var acc := new int[W](_ => 0);
    var j := colStart;
    while j < colEnd
      invariant colStart <= j
      invariant forall lid :: 0 <= lid < W ==>
        acc[lid] == if rg * W + lid < p.M
                    then ColSum(p, rg * W + lid, colStart, if j < colEnd then j else colEnd)
                    else 0
      decreases colEnd - j
    {
      StageChunk(p, j, colEnd, shRow, shVal);
      AccumulateChunk(p, rg, j, colEnd, shRow, shVal, acc);
      forall lid | 0 <= lid < W && rg * W + lid < p.M
        ensures acc[lid] == ColSum(p, rg * W + lid, colStart,
                                   if j + W < colEnd then j + W else colEnd)
      {
        ColSumSplit(p, rg * W + lid, colStart, j, if j + W < colEnd then j + W else colEnd);
      }
      j := j + W;
    }
    sums := acc[..];
  }

  /** Offset o is a cell of row group rg and column col with row below M. */
  predicate InColumnStep(p: CscProblem, o: int, rg: int, col: int)
    requires WellFormed(p) && o >= 0
  {
    ColOf(p, o) == col && RowOf(p, o) < p.M && rg * W <= RowOf(p, o) < rg * W + W
  }

  /** C after the lanes of row group rg have written column col. */
  function ColumnDone(p: CscProblem, c: seq<int>, rg: int, col: int): (r: seq<int>)
    requires WellFormed(p) && 0 <= col < p.N
    ensures |r| == |c|
  {
    seq(|c|, o requires 0 <= o < |c| =>
      if InColumnStep(p, o, rg, col) then NewValue(p, c[o], RowOf(p, o), col) else c[o])
  }

  /** The W lanes of row group rg process column col: the chunk loop, then
      each lane with a row below M blends and writes its own cell. */
  method ColumnStep(p: CscProblem, rg: int, col: int, C: array<int>)
    requires WellFormed(p) && CFits(p, C.Length) && rg >= 0 && 0 <= col < p.N
    modifies C
    ensures C[..] == ColumnDone(p, old(C[..]), rg, col)
  {
    var sums := ColumnSums(p, rg, col);
    for lid := 0 to W
      invariant forall o :: 0 <= o < C.Length ==>
        C[o] == if InColumnStep(p, o, rg, col) && RowOf(p, o) < rg * W + lid
                then NewValue(p, old(C[o]), RowOf(p, o), col) else old(C[o])
    {
      var row := lid + rg * W;
      if row < p.M {
        CellOffset(p, C.Length, row, col);
        var off := row + col * p.ldc;
        assert sums[lid] == ColumnValue(p, row, col);
        if p.beta == 0 {
          C[off] := sums[lid];
        } else {
          C[off] := p.beta * C[off] + sums[lid];
        }
      }
    }
    assert C[..] == ColumnDone(p, old(C[..]), rg, col);
  }

  /** Offset o is a cell of row group rg in one of the columns lane group lg
      owns (columns congruent to lg modulo nwf). */
  predicate InLaneGroup(p: CscProblem, o: int, rg: int, lg: int, nwf: int)
    requires WellFormed(p) && o >= 0 && nwf > 0
  {
    ColOf(p, o) < p.N && Rem(ColOf(p, o), nwf) == lg && RowOf(p, o) < p.M
    && rg * W <= RowOf(p, o) < rg * W + W
  }

  /** C after lane group lg of row group rg has processed its columns below
      colBound. */
  function LaneGroupDone(p: CscProblem, c: seq<int>, rg: int, lg: int, nwf: int, colBound: int): (r: seq<int>)
    requires WellFormed(p) && nwf > 0
    ensures |r| == |c|
  {
    seq(|c|, o requires 0 <= o < |c| =>
      if InLaneGroup(p, o, rg, lg, nwf) && ColOf(p, o) < colBound
      then NewValue(p, c[o], RowOf(p, o), ColOf(p, o)) else c[o])
  }

  /** One more iteration of the strided column loop adds exactly the cells
      of column col: the iterations of one lane group never meet a column
      twice and never skip one of theirs. */
  lemma NextColumn(p: CscProblem, c: seq<int>, rg: int, lg: int, nwf: int, col: int)
    requires WellFormed(p) && 0 <= lg < nwf && lg <= col < p.N
    requires Rem(col, nwf) == lg
    ensures ColumnDone(p, LaneGroupDone(p, c, rg, lg, nwf, col), rg, col)
         == LaneGroupDone(p, c, rg, lg, nwf, col + nwf)
  {
    var before := LaneGroupDone(p, c, rg, lg, nwf, col);
    forall o | 0 <= o < |c|
      ensures ColumnDone(p, before, rg, col)[o] == LaneGroupDone(p, c, rg, lg, nwf, col + nwf)[o]
    {
      if InLaneGroup(p, o, rg, lg, nwf) && col <= ColOf(p, o) < col + nwf {
        StrideStep(ColOf(p, o), col, nwf);
      }
    }
  }

  /** Before its first iteration a lane group has written nothing: no column
      below lg belongs to it. */
  lemma LaneGroupStart(p: CscProblem, c: seq<int>, rg: int, lg: int, nwf: int)
    requires WellFormed(p) && 0 <= lg < nwf
    ensures LaneGroupDone(p, c, rg, lg, nwf, lg) == c
  {
    forall o | 0 <= o < |c| && InLaneGroup(p, o, rg, lg, nwf) && ColOf(p, o) < lg
      ensures false
    {
      FirstLane(ColOf(p, o), nwf);
    }
  }

  /** Column bounds past N make no difference. */
  lemma LaneGroupEnd(p: CscProblem, c: seq<int>, rg: int, lg: int, nwf: int, colBound: int)
    requires WellFormed(p) && nwf > 0 && colBound >= p.N
    ensures LaneGroupDone(p, c, rg, lg, nwf, colBound) == LaneGroupDone(p, c, rg, lg, nwf, p.N)
  {
  }

  /** One lane group: the strided column loop `col = lg; col < N; col += nwf`. */
  method LaneGroup(p: CscProblem, rg: int, lg: int, nwf: int, C: array<int>)
    requires WellFormed(p) && CFits(p, C.Length) && rg >= 0 && 0 <= lg < nwf
    modifies C
    ensures C[..] == LaneGroupDone(p, old(C[..]), rg, lg, nwf, p.N)
  {
    ghost var c0 := C[..];
    var col := lg;
    FirstLane(lg, nwf);
    LaneGroupStart(p, c0, rg, lg, nwf);
    while col < p.N
      invariant lg <= col && Rem(col, nwf) == lg
      invariant C[..] == LaneGroupDone(p, c0, rg, lg, nwf, col)
      decreases p.N - col
    {
      ColumnStep(p, rg, col, C);
      NextColumn(p, c0, rg, lg, nwf, col);
      StrideResidue(col, nwf);
      col := col + nwf;
    }
    LaneGroupEnd(p, c0, rg, lg, nwf, col);
  }

  /** C after row groups 0 .. rg-1 are complete and, in row group rg, lane
      groups 0 .. lg-1 have run. */
  function GridDone(p: CscProblem, c: seq<int>, rg: int, lg: int, nwf: int): (r: seq<int>)
    requires WellFormed(p) && nwf > 0
    ensures |r| == |c|
  {
    seq(|c|, o requires 0 <= o < |c| =>
      if Covered(p, o, W * rg)
         || (Covered(p, o, W * rg + W) && W * rg <= RowOf(p, o) && Rem(ColOf(p, o), nwf) < lg)
      then NewValue(p, c[o], RowOf(p, o), ColOf(p, o)) else c[o])
  }

  /** Running lane group lg completes its share of row group rg. */
  lemma NextLaneGroup(p: CscProblem, c: seq<int>, rg: int, lg: int, nwf: int)
    requires WellFormed(p) && rg >= 0 && 0 <= lg < nwf
    ensures LaneGroupDone(p, GridDone(p, c, rg, lg, nwf), rg, lg, nwf, p.N)
         == GridDone(p, c, rg, lg + 1, nwf)
  {
  }

  /** Once all nwf lane groups have run, row group rg is complete. */
  lemma RowGroupComplete(p: CscProblem, c: seq<int>, rg: int, nwf: int)
    requires WellFormed(p) && rg >= 0 && nwf > 0
    ensures GridDone(p, c, rg, nwf, nwf) == Expected(p, c, W * (rg + 1))
    ensures Expected(p, c, W * rg) == GridDone(p, c, rg, 0, nwf)
  {
  }

  /** C after the kernel has run on a grid of gx x gy blocks of BlockSize
      threads: nwf = gx*BlockSize/W lane groups per row group. Every cell in
      the first W*gy rows (and below M) is written once, every other offset
      of C keeps its value. */
  method McscmnnGeneral(p: CscProblem, gx: int, gy: int, C: array<int>)
    requires WellFormed(p) && CFits(p, C.Length) && gx >= 1 && gy >= 0
    modifies C
    ensures C[..] == Expected(p, old(C[..]), W * gy)
  {
    var nwf := gx * BlockSize / W;
    assert nwf == gx * 32;
    assert Expected(p, old(C[..]), 0) == old(C[..]);
    for rg := 0 to gy
      invariant C[..] == Expected(p, old(C[..]), W * rg)
    {
      RowGroupComplete(p, old(C[..]), rg, nwf);
      for lg := 0 to nwf
        invariant C[..] == GridDone(p, old(C[..]), rg, lg, nwf)
      {
        LaneGroup(p, rg, lg, nwf, C);
        NextLaneGroup(p, old(C[..]), rg, lg, nwf);
      }
    }
  }

  /** mcscmtn_general_device: its whole body is commented out, so running it
      changes nothing. */
  method McscmtnGeneral(p: CscProblem, C: array<int>)
    ensures C[..] == old(C[..])
  {
  }
}
