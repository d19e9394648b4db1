/**
 * The library-wide vocabulary: the status codes every entry point returns,
 * the handle's pointer mode, the operation enum and the matrix descriptor.
 */
module RocsparseTypes {

  /** A pointer argument: None is a null pointer, Some carries what it points to. */
  datatype Option<T> = None | Some(value: T)

  /** The status codes the four entry points can return. */
  datatype Status =
    | Success
    | InvalidHandle
    | InvalidPointer
    | InvalidSize
    | InvalidValue
    | NotImplemented

  /** Whether scalar arguments (alpha, beta, result) live in host or device memory. */
  datatype PointerMode = HostPointer | DevicePointer

  /** rocsparse_operation: none, transpose, conjugate transpose. */
  datatype Operation = NoTranspose | Transpose | ConjugateTranspose

  /** rocsparse_matrix_type; only General is implemented by the primitives. */
  datatype MatrixType = General | Symmetric | Hermitian | Triangular

  /** A matrix descriptor. The index base is kept as the raw enum value,
      because the code both compares it with zero/one and subtracts it from
      stored indices (rocsparse_index_base_zero is 0, _one is 1). */
  datatype MatDescr = MatDescr(base: int, matType: MatrixType)

  /** The index bases the library accepts. */
  predicate ValidBase(base: int)
  {
    base == 0 || base == 1
  }

  /** The minimum leading dimension `std::max(1, d)`. */
  function MinLd(d: int): (r: int)
    ensures r >= 1 && r >= d
    ensures r == 1 || r == d
  {
    if d > 1 then d else 1
  }
}
