/**
 * The host side of the sparse dot product (rocsparse_doti_template): the
 * argument checks in their fixed order, the quick return, and where the
 * result ends up in each pointer mode.
 */
module DotiHost {
  import opened RocsparseTypes

  /** Threads per block and blocks of the first reduction kernel (DOTI_DIM). */
  const DotiDim := 1024

  /** The arguments of rocsparse_doti_template. The vectors are represented
      only by whether they are non-null: the reduction kernels that read
      them are not part of this model. */
  datatype DotiArgs = DotiArgs(
    handle: bool, mode: PointerMode, nnz: int,
    xVal: bool, xInd: bool, y: bool, result: bool, idxBase: int)

  /** An error status, success without a launch, or the two-kernel
      reduction on DOTI_DIM blocks of DOTI_DIM threads. */
  datatype DotiPlan = DotiFail(status: Status) | DotiDone | DotiLaunch(blocks: int, threads: int)

  function PlanStatus(r: DotiPlan): Status
  {
    if r.DotiFail? then r.status else Success
  }

  predicate PointersOk(a: DotiArgs)
  {
    a.xVal && a.xInd && a.y && a.result
  }

  predicate Validated(a: DotiArgs)
  {
    a.handle && ValidBase(a.idxBase) && a.nnz >= 0 && PointersOk(a)
  }

  /** rocsparse_doti_template's decision; the ensures clauses state the
      priority of the checks: handle, index base, size, the four pointers
      in order, then the quick return. */
  function DotiTemplate(a: DotiArgs): (r: DotiPlan)
    ensures !a.handle ==> r == DotiFail(InvalidHandle)
    ensures a.handle && !ValidBase(a.idxBase) ==> r == DotiFail(InvalidValue)
    ensures a.handle && ValidBase(a.idxBase) && a.nnz < 0 ==> r == DotiFail(InvalidSize)
    ensures a.handle && ValidBase(a.idxBase) && a.nnz >= 0 && !PointersOk(a) ==> r == DotiFail(InvalidPointer)
    ensures r == DotiDone <==> Validated(a) && a.nnz == 0
    ensures r.DotiLaunch? <==> Validated(a) && a.nnz > 0
    ensures r.DotiLaunch? ==> r == DotiLaunch(DotiDim, DotiDim)
  {
    if !a.handle then DotiFail(InvalidHandle)
    else if a.idxBase != 0 && a.idxBase != 1 then DotiFail(InvalidValue)
    else if a.nnz < 0 then DotiFail(InvalidSize)
    else if !a.xVal then DotiFail(InvalidPointer)
    else if !a.xInd then DotiFail(InvalidPointer)
    else if !a.y then DotiFail(InvalidPointer)
    else if !a.result then DotiFail(InvalidPointer)
    else if a.nnz == 0 then DotiDone
    else DotiLaunch(DotiDim, DotiDim)
  }

  /** The value *result holds after the call, given what it held before and
      the value `dot` the reduction kernels produce: the reduction's value
      when every check passes and there is something to sum, in either
      pointer mode; the old value on an error or the nnz == 0 quick return. */
  function DotiResult(a: DotiArgs, before: int, dot: int): (r: int)
    ensures Validated(a) && a.nnz > 0 ==> r == dot
    ensures !Validated(a) || a.nnz == 0 ==> r == before
  {
    if DotiTemplate(a).DotiLaunch? then dot else before
  }

  /** The whole call. `workspace` is the handle's device buffer; `result`
      is *result (in host or device memory according to the pointer mode, or
      null). The reduction kernels are represented by the value `dot` they
      produce: the second kernel writes it to *result directly in device
      mode, and to workspace[0] in host mode, from where hipMemcpy copies it
      to *result. */
  method Doti(a: DotiArgs, workspace: array<int>, result: array?<int>, dot: int) returns (status: Status)
    requires a.result == (result != null) && workspace.Length >= 1 && result != workspace
    requires result != null ==> result.Length >= 1
    modifies workspace, result
    ensures status == PlanStatus(DotiTemplate(a))
    ensures result != null ==> result[0] == DotiResult(a, old(result[0]), dot)
    ensures result != null ==> result[1..] == old(result[1..])
    ensures DotiTemplate(a).DotiLaunch? && a.mode == HostPointer ==> workspace[0] == result[0]
    ensures !DotiTemplate(a).DotiLaunch? ==> workspace[..] == old(workspace[..])
  {
    var plan := DotiTemplate(a);
    status := PlanStatus(plan);
    if plan.DotiLaunch? {
      if a.mode == DevicePointer {
        result[0] := dot;
      } else {
        workspace[0] := dot;
        result[0] := workspace[0];
      }
    }
  }
}
