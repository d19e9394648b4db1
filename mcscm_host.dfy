/**
 * The host side of the sparse-CSC times dense product (rocsparse_mcscm_template
 * and the two non-transposed kernel wrappers): the argument checks in their
 * fixed order, the quick return, the leading-dimension checks, the launch
 * grid, the alpha == 0 && beta == 1 short cut in both pointer modes, and the
 * effect of the whole call on C.
 */
module McscmHost {
  import opened IndexArith
  import opened RocsparseTypes
  import opened McscmDevice

  /** The arguments of rocsparse_mcscm_template. A pointer argument is an
      Option (None is nullptr); alpha and beta carry the scalar they point to,
      in host or device memory according to the handle's pointer mode. C is
      passed separately as an array; cGiven records whether it is non-null. */
  datatype McscmArgs = McscmArgs(
    handle: bool, mode: PointerMode,
    transA: Operation, transB: Operation,
    m: int, n: int, k: int,
    alpha: Option<int>, A: Option<seq<int>>, lda: int, nnz: int,
    descr: Option<MatDescr>,
    cscVal: Option<seq<int>>, cscColPtr: Option<seq<int>>, cscRowInd: Option<seq<int>>,
    beta: Option<int>, cGiven: bool, ldc: int)

  /** What the template decides: an error status, success without a kernel
      launch, or a launch of the non-transposed kernel on a gx x gy grid. */
  datatype McscmPlan = McscmFail(status: Status) | McscmDone | McscmLaunch(gx: int, gy: int)

  function PlanStatus(r: McscmPlan): Status
  {
    if r.McscmFail? then r.status else Success
  }

  /** Handle and descriptor present, base 0 or 1, general matrix type. */
  predicate HeaderOk(a: McscmArgs)
  {
    a.handle && a.descr.Some? && ValidBase(a.descr.value.base) && a.descr.value.matType == General
  }

  predicate SizesOk(a: McscmArgs)
  {
    a.m >= 0 && a.n >= 0 && a.k >= 0 && a.nnz >= 0
  }

  /** The seven data pointers are non-null. */
  predicate PointersOk(a: McscmArgs)
  {
    a.cscVal.Some? && a.cscColPtr.Some? && a.cscRowInd.Some? && a.A.Some?
    && a.cGiven && a.alpha.Some? && a.beta.Some?
  }

  /** Everything checked before the quick return passed. */
  predicate Validated(a: McscmArgs)
  {
    HeaderOk(a) && SizesOk(a) && PointersOk(a)
  }

  predicate Degenerate(a: McscmArgs)
  {
    a.m == 0 || a.n == 0 || a.k == 0 || a.nnz == 0
  }

  /** The required minimum of lda and of ldc: max(1, m) without transposition
      of A, max(1, k) otherwise. */
  function LdMin(a: McscmArgs): int
  {
    if a.transA == NoTranspose then MinLd(a.m) else MinLd(a.k)
  }

  predicate LdOk(a: McscmArgs)
  {
    a.lda >= LdMin(a) && a.ldc >= LdMin(a)
  }

  /** The host-pointer short cut: with alpha == 0 and beta == 1 no kernel runs. */
  predicate HostNoOp(a: McscmArgs)
    requires a.alpha.Some? && a.beta.Some?
  {
    a.mode == HostPointer && a.alpha.value == 0 && a.beta.value == 1
  }

  /** The launch grid: ((W*n - 1)/BlockSize + 1) blocks along x, (m - 1)/W + 1
      along y. It gives every column a lane group and every row a lane, and
      has no block more than needed. */
  function McscmGrid(m: int, n: int): (g: (int, int))
    requires m >= 1 && n >= 1
    ensures g.0 >= 1 && g.0 * BlockSize / W >= n && (g.0 - 1) * BlockSize < W * n
    ensures g.1 >= 1 && g.1 * W >= m && (g.1 - 1) * W < m
  {
    ((W * n - 1) / BlockSize + 1, (m - 1) / W + 1)
  }

  /** rocsparse_mcscm_template's decision. The ensures clauses state the
      priority of the checks: handle, descriptor, index base, matrix type,
      sizes, data pointers, quick return, leading dimensions, operations. */
  function McscmTemplate(a: McscmArgs): (r: McscmPlan)
    ensures !a.handle ==> r == McscmFail(InvalidHandle)
    ensures a.handle && a.descr.None? ==> r == McscmFail(InvalidPointer)
    ensures a.handle && a.descr.Some? && !ValidBase(a.descr.value.base) ==> r == McscmFail(InvalidValue)
    ensures (a.handle && a.descr.Some? && ValidBase(a.descr.value.base)
             && a.descr.value.matType != General) ==> r == McscmFail(NotImplemented)
    ensures HeaderOk(a) && !SizesOk(a) ==> r == McscmFail(InvalidSize)
    ensures HeaderOk(a) && SizesOk(a) && !PointersOk(a) ==> r == McscmFail(InvalidPointer)
    ensures Validated(a) && Degenerate(a) ==> r == McscmDone
    ensures Validated(a) && !Degenerate(a) && !LdOk(a) ==> r == McscmFail(InvalidSize)
    ensures Validated(a) && !Degenerate(a) && LdOk(a) ==>
              (r == McscmFail(NotImplemented) <==> (a.transA != NoTranspose || a.transB == Transpose))
    ensures r.McscmLaunch? <==>
              Validated(a) && !Degenerate(a) && LdOk(a)
              && a.transA == NoTranspose && a.transB == NoTranspose && !HostNoOp(a)
    ensures r.McscmLaunch? ==> (r.gx, r.gy) == McscmGrid(a.m, a.n)
    ensures r == McscmDone <==>
              Validated(a)
              && (Degenerate(a)
                  || (LdOk(a) && a.transA == NoTranspose
                      && (a.transB == ConjugateTranspose || (a.transB == NoTranspose && HostNoOp(a)))))
  {
    if !a.handle then McscmFail(InvalidHandle)
    else if a.descr.None? then McscmFail(InvalidPointer)
    else if a.descr.value.base != 0 && a.descr.value.base != 1 then McscmFail(InvalidValue)
    else if a.descr.value.matType != General then McscmFail(NotImplemented)
    else if a.m < 0 then McscmFail(InvalidSize)
    else if a.n < 0 then McscmFail(InvalidSize)
    else if a.k < 0 then McscmFail(InvalidSize)
    else if a.nnz < 0 then McscmFail(InvalidSize)
    else if a.cscVal.None? then McscmFail(InvalidPointer)
    else if a.cscColPtr.None? then McscmFail(InvalidPointer)
    else if a.cscRowInd.None? then McscmFail(InvalidPointer)
    else if a.A.None? then McscmFail(InvalidPointer)
    else if !a.cGiven then McscmFail(InvalidPointer)
    else if a.alpha.None? then McscmFail(InvalidPointer)
    else if a.beta.None? then McscmFail(InvalidPointer)
    else if a.m == 0 || a.n == 0 || a.k == 0 || a.nnz == 0 then McscmDone
    else if a.transA == NoTranspose && a.lda < MinLd(a.m) then McscmFail(InvalidSize)
    else if a.transA != NoTranspose && a.lda < MinLd(a.k) then McscmFail(InvalidSize)
    else if a.transA == NoTranspose && a.ldc < MinLd(a.m) then McscmFail(InvalidSize)
    else if a.transA != NoTranspose && a.ldc < MinLd(a.k) then McscmFail(InvalidSize)
    else if a.transA == NoTranspose then
      if a.transB == NoTranspose then
        if a.mode == DevicePointer then
          var g := McscmGrid(a.m, a.n);
          McscmLaunch(g.0, g.1)
        else if a.alpha.value == 0 && a.beta.value == 1 then McscmDone
        else
          var g := McscmGrid(a.m, a.n);
          McscmLaunch(g.0, g.1)
      else if a.transB == Transpose then McscmFail(NotImplemented)
      else McscmDone
    else McscmFail(NotImplemented)
  }

  /** The kernel's view of the arguments. */
  function Problem(a: McscmArgs): CscProblem
    requires HeaderOk(a) && PointersOk(a)
  {
    CscProblem(a.m, a.n, a.k, a.alpha.value, a.A.value, a.lda,
               a.cscColPtr.value, a.cscRowInd.value, a.cscVal.value,
               a.beta.value, a.ldc, a.descr.value.base)
  }

  /** A launch only happens with dimensions the kernel can rely on. */
  lemma LaunchDims(a: McscmArgs)
    requires McscmTemplate(a).McscmLaunch?
    ensures HeaderOk(a) && PointersOk(a) && DimsOk(Problem(a))
    ensures Problem(a).M >= 1 && Problem(a).N >= 1 && Problem(a).K >= 1
  {
  }

  /** What a call does to the contents of C: a launch computes the product
      on the whole M x N block (the grid covers every row), anything else
      leaves C as it was. */
  function McscmEffect(a: McscmArgs, c: seq<int>): (r: seq<int>)
    requires McscmTemplate(a).McscmLaunch? ==> BuffersOk(Problem(a))
    ensures |r| == |c|
  {
    match McscmTemplate(a)
    case McscmLaunch(gx, gy) =>
      LaunchDims(a);
      Expected(Problem(a), c, W * gy)
    case _ => c
  }

  /** The launch covers every output cell: the y extent of the grid reaches
      every row below M, so the effect is the full product on every cell. */
  lemma LaunchCoversAllCells(a: McscmArgs, c: seq<int>, o: int)
    requires McscmTemplate(a).McscmLaunch? && BuffersOk(Problem(a))
    requires 0 <= o < |c|
    ensures WellFormed(Problem(a))
    ensures var p := Problem(a);
            McscmEffect(a, c)[o]
              == if RowOf(p, o) < p.M && ColOf(p, o) < p.N
                 then NewValue(p, c[o], RowOf(p, o), ColOf(p, o)) else c[o]
  {
    LaunchDims(a);
  }

  /** alpha == 0 && beta == 1 leaves C unchanged in both pointer modes: on
      the host path no kernel is launched, on the device path the product
      itself is the identity (and the kernel returns at once). */
  lemma AlphaZeroBetaOneLeavesC(a: McscmArgs, c: seq<int>)
    requires a.alpha == Some(0) && a.beta == Some(1)
    requires McscmTemplate(a).McscmLaunch? ==> BuffersOk(Problem(a))
    ensures McscmEffect(a, c) == c
  {
    if McscmTemplate(a).McscmLaunch? {
      LaunchDims(a);
      AlphaZeroBetaOneIsIdentity(Problem(a), c, W * McscmTemplate(a).gy);
    }
  }

  /** A failed or degenerate call does not touch C. */
  lemma NoLaunchLeavesC(a: McscmArgs, c: seq<int>)
    requires !McscmTemplate(a).McscmLaunch?
    ensures McscmEffect(a, c) == c
  {
  }

  /** mcscmnn_kernel_device_pointer: reads alpha and beta from device memory
      and returns at once when alpha == 0 && beta == 1. */
  method McscmnnKernelDevicePointer(p: CscProblem, gx: int, gy: int, C: array<int>)
    requires WellFormed(p) && CFits(p, C.Length) && gx >= 1 && gy >= 0
    modifies C
    ensures C[..] == Expected(p, old(C[..]), W * gy)
  {
    if p.alpha == 0 && p.beta == 1 {
      AlphaZeroBetaOneIsIdentity(p, C[..], W * gy);
      return;
    }
    McscmnnGeneral(p, gx, gy, C);
  }

  /** The whole call: the template's checks, then, on a launch, the kernel of
      the handle's pointer mode run over C. */
  method Mcscm(a: McscmArgs, C: array?<int>) returns (status: Status)
    requires a.cGiven == (C != null)
    requires McscmTemplate(a).McscmLaunch? ==> BuffersOk(Problem(a)) && CFits(Problem(a), C.Length)
    modifies C
    ensures status == PlanStatus(McscmTemplate(a))
    ensures C != null ==> C[..] == McscmEffect(a, old(C[..]))
  {
    var plan := McscmTemplate(a);
    status := PlanStatus(plan);
    if plan.McscmLaunch? {
      LaunchDims(a);
      if a.mode == DevicePointer {
        McscmnnKernelDevicePointer(Problem(a), plan.gx, plan.gy, C);
      } else {
        McscmnnGeneral(Problem(a), plan.gx, plan.gy, C);
      }
    }
  }
}
