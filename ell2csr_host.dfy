/**
 * The host side of the ELL to CSR conversion (rocsparse_ell2csr_template):
 * the argument checks in their fixed order, the quick return and the
 * one-dimensional launch grid of the fill kernel.
 */
module Ell2csrHost {
  import opened RocsparseTypes

  /** Threads per block of the fill kernel (ELL2CSR_DIM). */
  const Ell2csrDim := 256

  /** The arguments of rocsparse_ell2csr_template. The data arrays are
      represented only by whether they are non-null: the fill kernel that
      reads and writes them is not part of this model. */
  datatype Ell2csrArgs = Ell2csrArgs(
    handle: bool, m: int, n: int,
    ellDescr: Option<MatDescr>, ellWidth: int, ellVal: bool, ellColInd: bool,
    csrDescr: Option<MatDescr>, csrVal: bool, csrRowPtr: bool, csrColInd: bool)

  /** An error status, success without a launch, or a launch of the fill
      kernel on `blocks` blocks of 256 threads. */
  datatype Ell2csrPlan = Ell2csrFail(status: Status) | Ell2csrDone | Ell2csrLaunch(blocks: int)

  function PlanStatus(r: Ell2csrPlan): Status
  {
    if r.Ell2csrFail? then r.status else Success
  }

  predicate DescrsPresent(a: Ell2csrArgs)
  {
    a.handle && a.ellDescr.Some? && a.csrDescr.Some?
  }

  predicate BasesOk(a: Ell2csrArgs)
    requires DescrsPresent(a)
  {
    ValidBase(a.ellDescr.value.base) && ValidBase(a.csrDescr.value.base)
  }

  predicate TypesOk(a: Ell2csrArgs)
    requires DescrsPresent(a)
  {
    a.ellDescr.value.matType == General && a.csrDescr.value.matType == General
  }

  predicate SizesOk(a: Ell2csrArgs)
  {
    a.m >= 0 && a.n >= 0 && a.ellWidth >= 0
  }

  predicate PointersOk(a: Ell2csrArgs)
  {
    a.ellVal && a.ellColInd && a.csrVal && a.csrRowPtr && a.csrColInd
  }

  /** Everything checked before the quick return passed. */
  predicate Validated(a: Ell2csrArgs)
  {
    DescrsPresent(a) && BasesOk(a) && TypesOk(a) && SizesOk(a) && PointersOk(a)
  }

  /** `(m - 1) / ELL2CSR_DIM + 1` blocks: one thread per row, and no block
      more than that needs. */
  function Ell2csrBlocks(m: int): (r: int)
    requires m >= 1
    ensures r >= 1 && r * Ell2csrDim >= m && (r - 1) * Ell2csrDim < m
  {
    (m - 1) / Ell2csrDim + 1
  }

  /** rocsparse_ell2csr_template's decision. The ensures clauses state the
      priority of the checks: handle, the two descriptors, the two index
      bases, the two matrix types, the sizes, the five data pointers in
      order, then the quick return. */
  function Ell2csrTemplate(a: Ell2csrArgs): (r: Ell2csrPlan)
    ensures !a.handle ==> r == Ell2csrFail(InvalidHandle)
    ensures a.handle && (a.ellDescr.None? || a.csrDescr.None?) ==> r == Ell2csrFail(InvalidPointer)
    ensures DescrsPresent(a) && !BasesOk(a) ==> r == Ell2csrFail(InvalidValue)
    ensures DescrsPresent(a) && BasesOk(a) && !TypesOk(a) ==> r == Ell2csrFail(NotImplemented)
    ensures DescrsPresent(a) && BasesOk(a) && TypesOk(a) && !SizesOk(a) ==> r == Ell2csrFail(InvalidSize)
    ensures (DescrsPresent(a) && BasesOk(a) && TypesOk(a) && SizesOk(a) && !PointersOk(a))
              ==> r == Ell2csrFail(InvalidPointer)
    ensures r == Ell2csrDone <==> Validated(a) && (a.m == 0 || a.n == 0 || a.ellWidth == 0)
    ensures r.Ell2csrLaunch? <==> Validated(a) && a.m > 0 && a.n > 0 && a.ellWidth > 0
    ensures r.Ell2csrLaunch? ==> a.m >= 1 && r.blocks == Ell2csrBlocks(a.m)
  {
    if !a.handle then Ell2csrFail(InvalidHandle)
    else if a.ellDescr.None? then Ell2csrFail(InvalidPointer)
    else if a.csrDescr.None? then Ell2csrFail(InvalidPointer)
    else if a.ellDescr.value.base != 0 && a.ellDescr.value.base != 1 then Ell2csrFail(InvalidValue)
    else if a.csrDescr.value.base != 0 && a.csrDescr.value.base != 1 then Ell2csrFail(InvalidValue)
    else if a.ellDescr.value.matType != General then Ell2csrFail(NotImplemented)
    else if a.csrDescr.value.matType != General then Ell2csrFail(NotImplemented)
    else if a.m < 0 || a.n < 0 || a.ellWidth < 0 then Ell2csrFail(InvalidSize)
    else if !a.ellVal then Ell2csrFail(InvalidPointer)
    else if !a.ellColInd then Ell2csrFail(InvalidPointer)
    else if !a.csrVal then Ell2csrFail(InvalidPointer)
    else if !a.csrRowPtr then Ell2csrFail(InvalidPointer)
    else if !a.csrColInd then Ell2csrFail(InvalidPointer)
    else if a.m == 0 || a.n == 0 || a.ellWidth == 0 then Ell2csrDone
    else Ell2csrLaunch(Ell2csrBlocks(a.m))
  }

  /** The status depends only on the first failing check, not on anything
      after it: two argument sets that agree up to a failing size check get
      the same answer whatever their pointers are. */
  lemma SizeBeforePointers(a: Ell2csrArgs, b: Ell2csrArgs)
    requires DescrsPresent(a) && BasesOk(a) && TypesOk(a) && !SizesOk(a)
    requires b == a.(ellVal := false, ellColInd := false, csrVal := false, csrRowPtr := false, csrColInd := false)
    ensures Ell2csrTemplate(a) == Ell2csrTemplate(b) == Ell2csrFail(InvalidSize)
  {
  }

  /** Every row of the matrix has a thread of the launch, and the last block
      holds at least one row. */
  lemma EveryRowHasAThread(a: Ell2csrArgs, row: int)
    requires Ell2csrTemplate(a).Ell2csrLaunch? && 0 <= row < a.m
    ensures 0 <= row / Ell2csrDim < Ell2csrTemplate(a).blocks
    ensures (Ell2csrTemplate(a).blocks - 1) * Ell2csrDim < a.m
  {
  }
}
