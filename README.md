# rocSPARSE: mcscm, im2col, ell2csr and doti

This project is a Dafny model of four rocSPARSE primitives.

- **mcscm** computes `C = alpha*A*B + beta*C`. Here A is a dense M x K
  column-major matrix, B is a K x N sparse matrix in CSC form, and C is a
  dense M x N matrix. The model covers:
  - the device routine `mcscmnn_general_device`;
  - the empty transposed routine `mcscmtn_general_device`;
  - the device-pointer kernel's early exit;
  - the host template `rocsparse_mcscm_template`.
- **im2col** unfolds the windows of an image into the columns of a matrix.
  The model covers both branches of `im2col_general_device`:
  - the untiled small-image branch;
  - the tiled branch, which stages a padded patch first.

  It also covers the host template `rocsparse_im2col_template`.
- **ell2csr**: the host template `rocsparse_ell2csr_template`, which makes
  the conversion's decisions.
- **doti**: the host template `rocsparse_doti_template`, and where the
  result ends up in each pointer mode.

Each template is a pure function from its arguments to a *plan*. A plan is
an error status, success without device work, or a launch together with
its grid (and, for im2col, its local-memory size). The `ensures` clauses of
these functions state the order of the checks: which status wins when
several arguments are wrong.

The kernels are imperative Dafny over arrays. One GPU thread, one lane or
one work group becomes one iteration of a sequential loop. The kernel
methods write into an `array<int>`, through helpers that return the staged
or summed values, and are proved against a function of the old contents. Separate lemmas then prove that function's meaning:

- **mcscm**: the chunked, zero-padded accumulation equals the plain column
  sum. Every cell with `row < M`, `col < N` gets `beta*C + sum`, or just
  `sum` when `beta == 0`. Every other entry of C is kept, and the index
  base does not change the result.
- **im2col**: every position of the column matrix gets its direct im2col
  value (the image pixel, or 0 in the padding). The col offsets are a
  bijection onto `[0, planes*out_h*out_w*wei_h*wei_w)`. The work-group
  tiles cover every position exactly once.

Values are exact integers. Sizes are unbounded integers.

Module layout, one file per module:

| file | module | contents |
|---|---|---|
| `index_arith.dfy` | `IndexArith` | ceiling division, quotient and remainder, strided-loop lemmas |
| `rocsparse_types.dfy` | `RocsparseTypes` | status codes, pointer mode, operations, matrix descriptors |
| `mcscm_device.dfy` | `McscmDevice` | the product kernel and its specification |
| `mcscm_host.dfy` | `McscmHost` | the mcscm template, the kernel wrapper and the whole call |
| `im2col_index.dfy` | `Im2colIndex` | geometry, col offsets and decoding, window values |
| `im2col_tiled.dfy` | `Im2colTiled` | the tiled branch: staging and scattering |
| `im2col_untiled.dfy` | `Im2colUntiled` | the untiled branch, read with a row stride parameter |
| `im2col_device.dfy` | `Im2colDevice` | the branch choice, and the tiled grid run work group by work group |
| `im2col_host.dfy` | `Im2colHost` | the im2col template |
| `ell2csr_host.dfy` | `Ell2csrHost` | the ell2csr template |
| `doti_host.dfy` | `DotiHost` | the doti template and the result copy-back |

The untiled branch has its own row stride parameter `rs`. The kernel as
written reads with `rs = h`; the rest of the model uses the corrected
`rs = w`. The Findings section below gives the details.

## Model

| member | source | states |
|---|---|---|
| IndexArith.CeilDiv | library/src/conversion/rocsparse_im2col.hpp:151-152 | The number of blocks of width b needed for a extent: r*b >= a, and one block fewer would not reach a. |
| RocsparseTypes.MinLd | library/src/level3/rocsparse_mcscm.hpp:300-303 | `std::max(1, d)` is at least 1 and at least d, and equals one of them. |
| McscmDevice.ColumnRange | library/src/level3/mcscm_device.h:61-62 | Only unpacks the CSC precondition WellFormed for one column: its entries, after subtracting the base, form the range `0 <= colPtr[c]-base <= colPtr[c+1]-base <= nnz`. |
| McscmDevice.DenseIndexInBounds | library/src/level3/mcscm_device.h:76 | The dense read `A[row + r*lda]` is inside A for `row < M` and `r < K`. |
| McscmDevice.ColSumSplit | library/src/level3/mcscm_device.h:66-78 | Splitting a column's entry range at any point splits its sum, so consuming the column in chunks of W gives the unchunked column sum. |
| McscmDevice.CellOffset | library/src/level3/mcscm_device.h:80-89 | The cell (row, col) with row < M and col < N is written at `row + col*ldc`, inside C, and that offset decodes back to (row, col). |
| McscmDevice.CellsDisjoint | library/src/level3/mcscm_device.h:80-89 | Distinct output cells are written at distinct offsets of C. |
| McscmDevice.BetaZeroIgnoresOldC | library/src/level3/mcscm_device.h:82-85 | With beta == 0, the value written to a covered cell does not depend on the old C. |
| McscmDevice.AlphaZeroColSum | library/src/level3/mcscm_device.h:71 | With alpha == 0 every staged value is 0, so every column sum is 0. |
| McscmDevice.AlphaZeroBetaOneIsIdentity | library/src/level3/mcscm_device.h:64-89 | With alpha == 0 and beta == 1 the product leaves every entry of C as it was. |
| McscmDevice.Rebase1 | library/src/level3/mcscm_device.h:61-70 | The base-1 re-encoding of a base-0 matrix keeps every column pointer and row index minus the base unchanged, keeps the lengths, and leaves every other field equal. |
| McscmDevice.RebaseColSum | library/src/level3/mcscm_device.h:61-70 | Subtracting the base from both pointers and row indices gives the base-1 encoding the same column sums as the base-0 one. |
| McscmDevice.BaseIndependence | library/src/level3/mcscm_device.h:61-70 | A base-0 matrix and its base-1 re-encoding are both well formed and produce the same C. |
| McscmDevice.ColumnOwner | library/src/level3/mcscm_device.h:50-59 | Column col is visited by lane group lg on iteration t exactly when lg = col % nwf and t = col / nwf, so each column is visited once. |
| McscmDevice.StageChunk | library/src/level3/mcscm_device.h:66-71 | Lane lid stages the shifted row index and `alpha*val` of entry j+lid. Past the column end it stages (0, 0). |
| McscmDevice.AccumulateLane | library/src/level3/mcscm_device.h:74-77 | A lane with row < M adds exactly the entries [j, min(j+W, colEnd)) of the column, and the padded slots add nothing. A lane with row >= M adds nothing. |
| McscmDevice.AccumulateChunk | library/src/level3/mcscm_device.h:74-77 | Every lane of the row group adds the chunk's share of its column sum. Lanes past M keep their sum. |
| McscmDevice.ColumnSums | library/src/level3/mcscm_device.h:61-78 | After the chunk loop, each lane with row < M holds its column value. Other lanes hold 0. |
| McscmDevice.ColumnStep | library/src/level3/mcscm_device.h:59-90 | One column of one row group: cells with row < M get `beta*C + sum` (`sum` when beta == 0). Every other entry is kept. |
| McscmDevice.NextColumn | library/src/level3/mcscm_device.h:59 | One more iteration of the strided column loop adds exactly the cells of column col. |
| McscmDevice.LaneGroupStart | library/src/level3/mcscm_device.h:59 | Before its first column a lane group has written nothing. |
| McscmDevice.LaneGroup | library/src/level3/mcscm_device.h:59-91 | The column loop `col = lg; col < N; col += nwf` writes exactly the cells of its columns in its row group. |
| McscmDevice.NextLaneGroup | library/src/level3/mcscm_device.h:47-59 | Running lane group lg extends the grid's work by exactly its columns. |
| McscmDevice.RowGroupComplete | library/src/level3/mcscm_device.h:47-59 | Once all nwf lane groups of a row group have run, its W rows are complete for every column. |
| McscmDevice.McscmnnGeneral | library/src/level3/mcscm_device.h:30-92 | On a gx x gy grid, C becomes the product on every cell with row < min(M, 8*gy) and col < N. Every other entry is kept. |
| McscmDevice.McscmtnGeneral | library/src/level3/mcscm_device.h:94-164 | The transposed routine's body is commented out, so C is unchanged. |
| McscmHost.McscmGrid | library/src/level3/rocsparse_mcscm.hpp:342 | The grid `((8n-1)/256+1, (m-1)/8+1)` gives every column a lane group (`gx*256/8 >= n`) and every row a lane (`gy*8 >= m`), with no surplus block. |
| McscmHost.McscmTemplate | library/src/level3/rocsparse_mcscm.hpp:180-406 | The check order: handle, descriptor, base, matrix type, the four sizes, the seven pointers, the quick return on a zero size, lda then ldc against max(1, m or k), then the operations. Launch happens iff all checks pass, both operations are none and the host-mode no-op does not apply; the launch uses McscmGrid. Success without a launch happens iff all checks pass and either a size is zero, or trans_A is none and trans_B is conjugate transpose, or both are none and the host-mode alpha == 0, beta == 1 short cut applies. |
| McscmHost.LaunchDims | library/src/level3/rocsparse_mcscm.hpp:294-330 | A launch happens only with positive m, n, k and leading dimensions of at least max(1, m). |
| McscmHost.LaunchCoversAllCells | library/src/level3/rocsparse_mcscm.hpp:342-343 | After a launch, every cell with row < M and col < N holds `beta*C + sum` (`sum` when beta == 0). Every other entry of C is kept. |
| McscmHost.AlphaZeroBetaOneLeavesC | library/src/level3/rocsparse_mcscm.hpp:369-372 | alpha == 0 and beta == 1 leave C unchanged in both pointer modes. |
| McscmHost.NoLaunchLeavesC | library/src/level3/rocsparse_mcscm.hpp:293-297 | A failing or quick-returning call leaves C unchanged. |
| McscmHost.McscmnnKernelDevicePointer | library/src/level3/rocsparse_mcscm.hpp:56-80 | The early return on alpha == 0 and beta == 1 leaves C exactly as the full product would. |
| McscmHost.Mcscm | library/src/level3/rocsparse_mcscm.hpp:161-407 | The whole call returns the template's status and leaves C as McscmEffect describes. |
| Im2colIndex.PixelIndex | library/src/conversion/im2col_device.h:97 | Pixel (ih, iw) of plane ch, at row stride rs, lies inside plane ch of the image. |
| Im2colIndex.DecodeCol | library/src/conversion/im2col_device.h:112-121 | Decoding a col offset gives a position (plane, window element, output position) in range whose offset is the original one. |
| Im2colIndex.ColOffsetRoundTrip | library/src/conversion/im2col_device.h:112-121 | Decoding the offset of any in-range position gives that position back. |
| Im2colIndex.ColOffsetRange | library/src/conversion/im2col_device.h:112-121 | The offset of a valid position lies in `[0, planes*out_h*out_w*wei_h*wei_w)`. |
| Im2colIndex.ColOffsetOnto | library/src/conversion/im2col_device.h:112-121 | Every offset in that range is the offset of a valid position. |
| Im2colIndex.ColOffsetInjective | library/src/conversion/im2col_device.h:112-121 | Distinct positions have distinct offsets. |
| Im2colIndex.ColOffsetAsWritten | library/src/conversion/im2col_device.h:54-64 | The kernel's spelling `col_y + col_x + (y*wei_w + x)*out_h*out_w` is the offset of the position. |
| Im2colIndex.WindowElement | library/src/conversion/im2col_device.h:57-64 | Window element k = y*wei_w + x is in range and decodes back to (y, x). |
| Im2colIndex.OutputPosition | library/src/conversion/im2col_device.h:50-54 | Output position `out_y*out_w + out_x` is in range and decodes back to (out_y, out_x). |
| Im2colIndex.WindowValueAt | library/src/conversion/im2col_device.h:61-67 | The value of a position is the pixel `(oy*stride_h - pad_h + y, ox*stride_w - pad_w + x)` when it lies in the image, and 0 otherwise. |
| Im2colIndex.IdentityUnrolling | library/src/conversion/im2col_device.h:53-67 | With a 1 x 1 window, stride 1, no padding and out_h, out_w equal to h, w, direct im2col is a reshape of the image: position (ch, 0, inner) sits at offset ch*h*w + inner and holds image element ch*h*w + inner. |
| Im2colIndex.TileColumnInRow | library/src/conversion/im2col_device.h:84-120 | The patch column `out_x*stride_w + x` of a tiled read is below `im_cols_wg`. |
| Im2colIndex.TileReadInLds | library/src/conversion/im2col_device.h:119-122 | Every local read of the tiled branch is below lds_size. |
| Im2colIndex.NextCellElement | library/src/conversion/im2col_device.h:57-69 | Writing window element k of an output position extends that position's window by element k. |
| Im2colTiled.OutColsWg | library/src/conversion/im2col_device.h:81 | `out_cols_wg` is TILE_SZ_X unless the tile is cut off by the right edge, in which case it reaches out_w exactly. |
| Im2colTiled.OutRowsWg | library/src/conversion/im2col_device.h:82 | `out_rows_wg` is TILE_SZ_Y unless the tile is cut off by the bottom edge, in which case it reaches out_h exactly. |
| Im2colTiled.StageSlot | library/src/conversion/im2col_device.h:89-100 | Slot inner_lid is split into row and column and rebuilt to the same offset. It receives the padded pixel of the patch, or 0 outside the image. |
| Im2colTiled.NextStaged | library/src/conversion/im2col_device.h:87-103 | A thread's next slot `inner_lid += 256` extends the staged part by just that slot. |
| Im2colTiled.StageLaneDone | library/src/conversion/im2col_device.h:87 | A thread whose index has passed LOCAL_MEM_SIZE is finished. |
| Im2colTiled.StageComplete | library/src/conversion/im2col_device.h:87-103 | The 256 strided threads together stage every slot of the buffer. |
| Im2colTiled.StageTile | library/src/conversion/im2col_device.h:85-104 | After staging, local slot `r*im_cols_wg + c` holds pixel `(im_y*stride_h + r - pad_h, im_x*stride_w + c - pad_w)` of plane wg_ch, or 0 outside the image. |
| Im2colTiled.TileInner | library/src/conversion/im2col_device.h:112 | `col_x` of tile cell t is an output position in range. |
| Im2colTiled.TileCellIff | library/src/conversion/im2col_device.h:107-112 | Tile cells and the output positions of the tile correspond one to one, in both directions. |
| Im2colTiled.NextTileCell | library/src/conversion/im2col_device.h:106-126 | A thread's next tile cell extends the scattered part by exactly that cell's window. |
| Im2colTiled.TileLaneDone | library/src/conversion/im2col_device.h:107 | A thread whose index has passed `out_cols_wg*out_rows_wg` is finished. |
| Im2colTiled.TileComplete | library/src/conversion/im2col_device.h:106-126 | The 256 strided threads together scatter every cell of the tile. |
| Im2colTiled.TileCellCoords | library/src/conversion/im2col_device.h:109-110 | `out_x = t % out_cols_wg` and `out_y = t / out_cols_wg` lie inside the tile. |
| Im2colTiled.TileReadSlot | library/src/conversion/im2col_device.h:119-122 | The local slot read is inside the buffer, in patch row `out_y*stride_h + y` and patch column `out_x*stride_w + x`. |
| Im2colTiled.TileReadIsDirect | library/src/conversion/im2col_device.h:115-123 | The staged value a tiled read finds is the direct im2col value of its position. |
| Im2colTiled.ScatterElement | library/src/conversion/im2col_device.h:109-122 | Element (y, x) of tile cell t is written at its position's col offset with the position's direct im2col value. |
| Im2colTiled.TileCell | library/src/conversion/im2col_device.h:115-124 | The window loops of a tile cell write every window element of its output position. |
| Im2colTiled.ScatterTile | library/src/conversion/im2col_device.h:106-126 | After the scatter loop, every position of the tile holds its direct im2col value. Every other entry is kept. |
| Im2colTiled.TiledWorkGroup | library/src/conversion/im2col_device.h:72-127 | A tiled work group writes direct im2col on exactly its tile and keeps everything else. |
| Im2colUntiled.ThreadsPerCh | library/src/conversion/im2col_device.h:23 | THREADS_PER_CH is positive and NUM_CH_PER_WG of them fill the 256 threads. |
| Im2colUntiled.StagedIndex | library/src/conversion/im2col_device.h:42 | The staged image index `(gid*NUM_CH_PER_WG)*h*w + lid` is inside the image. |
| Im2colUntiled.StageImage | library/src/conversion/im2col_device.h:38-43 | After staging, the first `NUM_CH_PER_WG*h*w` local slots hold the group's planes. The rest is untouched. |
| Im2colUntiled.LaneOfPos | library/src/conversion/im2col_device.h:40-50 | The thread that serves a written position is one of the 256. |
| Im2colUntiled.NextLane | library/src/conversion/im2col_device.h:46-69 | A thread with `lid % THREADS_PER_CH < out_h*out_w` writes exactly the window of (its plane, that output position). |
| Im2colUntiled.IdleLane | library/src/conversion/im2col_device.h:48 | A thread with `lid % THREADS_PER_CH >= out_h*out_w` writes nothing, and no position belongs to it. |
| Im2colUntiled.UntiledReadIsPixel | library/src/conversion/im2col_device.h:65 | The read `local_im[witem_ch*h*w + ih*rs + iw]` is inside the buffer and holds pixel (ih, iw) of the thread's plane, read at row stride rs. |
| Im2colUntiled.UntiledElement | library/src/conversion/im2col_device.h:50-67 | Element (y, x) of a thread's output position is written at the position's offset, with its window value at row stride rs, or 0 in the padding. |
| Im2colUntiled.UntiledWrite | library/src/conversion/im2col_device.h:61-67 | One pass of the window loops writes exactly window element (y, x). |
| Im2colUntiled.UntiledCell | library/src/conversion/im2col_device.h:57-69 | The window loops of a thread write the whole window of its output position. |
| Im2colUntiled.UntiledWorkGroup | library/src/conversion/im2col_device.h:35-70 | An untiled work group writes the window value, at row stride rs, at every position of its planes served by a thread, and keeps everything else. |
| Im2colUntiled.SquareImageIsDirect | library/src/conversion/im2col_device.h:65 | For a square image the stride as written (h) equals w, so the branch gives direct im2col. |
| Im2colUntiled.RowStrideHCounterexample | library/src/conversion/im2col_device.h:65 | On a 2 x 3 image holding 0..5, with a 1 x 1 window, the window read as written has 2 at position 3, where direct im2col has 3. |
| Im2colUntiled.RowStrideHOutput | library/src/conversion/im2col_device.h:35-70 | On that image, whatever col held of length at least 6, the work group of plane 0 as written leaves 2 at offset 3. |
| Im2colUntiled.OnePlaneGroupAt | library/src/conversion/im2col_device.h:40-70 | With one plane per work group, every output position of plane gid below 256 is written with its window value. |
| Im2colUntiled.StorageStrideIsDirect | library/src/conversion/im2col_device.h:61-67 | With the corrected row stride w, the branch writes direct im2col at every position it serves and keeps everything else. |
| Im2colDevice.Im2colGeneralDevice | library/src/conversion/im2col_device.h:7-128 | One work group of the kernel runs the branch the parameters select (untiled with row stride w, or tiled). |
| Im2colDevice.DeviceIsDirect | library/src/conversion/im2col_device.h:35-127 | Either branch writes direct im2col at the positions its work group serves and leaves all other entries as they were. |
| Im2colDevice.TileOwner | library/src/conversion/im2col_device.h:76-79 | The work group whose tile holds output position (oy, ox) of plane ch is `ch*NUM_IM_BLKS + (oy/TILE_SZ_Y)*NUM_IM_BLKS_X + ox/TILE_SZ_X`, in range. |
| Im2colDevice.TileOwnerOrigin | library/src/conversion/im2col_device.h:76-79 | That work group's plane is ch and its tile starts at the block corner containing (oy, ox). |
| Im2colDevice.TilesCover | library/src/conversion/im2col_device.h:76-82 | Every position of every plane lies in the tile of a work group of the grid, and that work group can run. |
| Im2colDevice.TilesDisjoint | library/src/conversion/im2col_device.h:76-82 | A position lies in the tile of its owner only, so no two work groups write the same entry. |
| Im2colDevice.GridGroupOk | library/src/conversion/im2col_device.h:76-82 | Every work group of the `planes*NUM_IM_BLKS` grid has its plane and a tile start inside the output. |
| Im2colDevice.NextGroup | library/src/conversion/im2col_device.h:74-126 | Running work group gb adds exactly the positions it owns. |
| Im2colDevice.GridComplete | library/src/conversion/im2col_device.h:74-126 | After the whole grid, every position holds its direct im2col value. |
| Im2colDevice.TiledGrid | library/src/conversion/im2col_device.h:72-127 | Running every work group of the tiled grid makes the first `planes*out_h*out_w*wei_h*wei_w` entries of col the direct im2col matrix. It keeps the rest. |
| Im2colHost.Im2colTemplate | library/src/conversion/rocsparse_im2col.hpp:54-196 | The check order: handle, im, col, the twelve sizes, the quick return on a zero n, c, h, w, wei_h or wei_w, then the layout. Known layouts launch with the lds_size and grid of the source. Done, not_implemented and launch each hold exactly in their stated cases. |
| Im2colHost.ZeroExtentsLaunch | library/src/conversion/rocsparse_im2col.hpp:87-154 | Zero out_h, out_w, pads and strides are not a quick return: they launch, with grid x 0. |
| Im2colHost.FirstNegativeSize | library/src/conversion/rocsparse_im2col.hpp:87-134 | Any negative one of the twelve integer parameters gives invalid_size once the pointers are present. |
| Im2colHost.GridCoversOutput | library/src/conversion/rocsparse_im2col.hpp:151-154 | Grid x is `ceil(out_w/32)*ceil(out_h/8)`; its tiles cover every output position, with no surplus block row or column. |
| Im2colHost.LdsFitsTile | library/src/conversion/rocsparse_im2col.hpp:150 | The lds_size of a launch covers every local read of the tiled branch. |
| Ell2csrHost.Ell2csrBlocks | library/src/conversion/rocsparse_ell2csr.hpp:139 | `(m-1)/256 + 1` blocks give every row a thread, and the last block holds a row. |
| Ell2csrHost.Ell2csrTemplate | library/src/conversion/rocsparse_ell2csr.hpp:50-158 | The check order: handle, the two descriptors, the two bases, the two matrix types, the sizes, the five pointers, then the quick return. A launch happens iff everything passes and m, n, ell_width are positive, and it uses Ell2csrBlocks(m). |
| Ell2csrHost.SizeBeforePointers | library/src/conversion/rocsparse_ell2csr.hpp:102-127 | A negative size gives invalid_size whatever the data pointers are. |
| Ell2csrHost.EveryRowHasAThread | library/src/conversion/rocsparse_ell2csr.hpp:139-140 | Every row below m has a thread in the launch grid. |
| DotiHost.DotiTemplate | library/src/level1/rocsparse_doti.hpp:46-163 | The check order: handle, index base, nnz, the four pointers, then the quick return on nnz == 0. A launch of DOTI_DIM blocks of DOTI_DIM threads happens iff every check passes and nnz > 0. |
| DotiHost.DotiResult | library/src/level1/rocsparse_doti.hpp:108-160 | *result holds the reduction's value when every argument check passes and nnz > 0, in either pointer mode, and its old value on an error or when nnz == 0. |
| DotiHost.Doti | library/src/level1/rocsparse_doti.hpp:108-163 | The call returns the template's status. After a launch *result holds the value; in host mode it is copied from workspace[0]. Without a launch neither *result nor the workspace changes. |

## Left out

- Floating point: values are exact integers. `fma`, rounding and NaN in the `alpha == 0.0` tests are not modelled.
- Integer width: `rocsparse_int` and `int` are 32-bit in the source, but the model uses unbounded integers. Overflow of `row + col*ldc`, of the col offsets, of `lds_size` and of `c*n` is not modelled.
- IndexArith.CeilDiv: the grid code computes `std::ceil(float(out_w)/32)`. This is modelled as exact integer ceiling division, so float rounding of very large extents is not captured.
- Concurrency: kernel launches, streams, barriers, lane lock-step and shared-memory races are left out; each thread, lane group or work group runs sequentially. The missing barrier before the next mcscm chunk overwrites the shared slots is one such race. The shared slots are modelled as one fresh W-slot buffer per column of a lane group. Every chunk rewrites all W slots before they are read, so a fresh buffer gives the same results as a reused one.
- Logging: `log_trace` and `log_bench` are I/O. In host mode they read `*alpha`, `*beta` and `*result` before the null checks; those reads are not modelled.
- `RETURN_IF_HIP_ERROR` on the doti copy-back, and device errors in general, are not modelled. The copy always succeeds.
- The doti reduction kernels `doti_kernel_part1` and `doti_kernel_part2` are not part of this model, since their source is not available. Their result is the parameter `dot` of DotiHost.Doti, which the second kernel leaves in *result (device mode) or in workspace[0] (host mode).
- `ell2csr_fill` is not part of this model either. Ell2csrHost models only what the template decides.
- `im2col_nchw_kernel` and `im2col_nhwc_kernel` are not part of this model. Im2colHost models only the template's decision, its lds_size and its grid. Who calls `im2col_general_device`, and with which macro values, is also not part of this model. So the tiled grid (Im2colDevice.TiledGrid) is tied to the template's TILE_SZ_X x TILE_SZ_Y grid only through the shared grid arithmetic.
- The C-ABI wrappers in `rocsparse_mcscm.cpp` and `rocsparse_im2col.cpp` only forward to the templates, so they are left out.
- The test helpers under `clients/` are left out.
- Macros: `NUM_CH_PER_WG`, `NUM_IM_BLKS`, `NUM_IM_BLKS_X`, `LOCAL_MEM_SIZE`, `TILE_SZ_X`, `TILE_SZ_Y`, `STRIDE_GT_1` and `USE_IM_OFF_GUARD` are fields of `Im2colConfig`. Their preconditions are stated as predicates: TiledConfigOk, UntiledConfigOk, GroupOk, TileGrid. `IM_OFF_GUARD` is a flag on the image source.
- The tiled branch's local buffer is declared `float` in the source; it holds integers here, like the image.
- Uninitialised shared memory: the untiled branch reads only staged slots, and the model proves that. The contents of slots that are never staged are kept as they were.
- Im2colUntiled.UntiledWorkGroup: reading with the as-written stride h needs `RowStrideOk(g, h)`. That precondition holds only when h <= w (or h <= 1). On an image with h > w, `ih*h + iw` can leave the thread's plane. On those the source reads another plane's pixels or stale slots, which the model does not capture. The model also requires the group's planes to fit the 256-slot local buffer (`chPerWg*h*w <= 256`, in UntiledGroupOk). The source does not check this: only threads 0..255 stage (lines 38-42), so with larger planes line 65 can read past the end of `local_im`, which the model does not capture.
- Im2colDevice.Im2colGeneralDevice: the untiled branch uses the corrected row stride w, not the h of the source (see Findings). Its precondition also covers only work groups whose NUM_CH_PER_WG planes all exist, and whose tiled branch starts inside the output.
- Check order: the code checks
  - handle, then the descriptor pointers;
  - then the index base and matrix type;
  - then the sizes;
  - then the data pointers.

  The model follows the code.
- mcscm with `trans_A == none` and `trans_B` conjugate transpose returns success with no launch, as the code does. McscmHost.McscmTemplate states this.

## Findings

| source | as written | input that shows it | evidently intended | confidence | as-written member | corrected member |
|---|---|---|---|---|---|---|
| library/src/conversion/im2col_device.h:65 | The untiled branch reads `local_im[witem_ch_offset + im_off_h*h + im_off_w]`: image rows are taken h apart, but the image is staged with rows w apart (`im_off_h*w + im_off_w`, as in line 97). | A 2 x 3 image (h = 2, w = 3) holding 0..5, one plane, a 1 x 1 window, no padding, stride 1. Position 3, pixel (1, 0), receives element 2 instead of element 3. | Row stride w: `im_off_h*w + im_off_w`. | not executed | Im2colUntiled.RowStrideHCounterexample | Im2colUntiled.StorageStrideIsDirect |
