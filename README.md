# scan-rs in Dafny

A model of the exclusive prefix sum ("scan") of the scan-rs repository and of
the strategies it offers for computing it. Every strategy takes an identity
`def`, an input `v_in` and an output `v_out` of the same length n, and leaves
`v_out[k] = def + v_in[0] + ... + v_in[k-1]`. That oracle is `Prefix.ScanSpec`,
and every strategy is proved to produce it:

- the sequential recurrence (`SeqScan`, and `CrateScan.Seq` for the older crate);
- the in-place offset-doubling (Hillis-Steele) tree with a descending inner
  loop (`NaiveScan`);
- the double-buffered tree, whose result buffer is chosen by the parity of the
  depth count (`DoubleBufferScan`);
- the SIMD double-buffered tree over lanes of `width` elements, with lane
  masks, masked loads, a masked gather and masked stores (`SimdScan`);
- the parallel CPU double-buffered tree, with the worker threads run one after
  another in any order (`ParCpuScan`). As written it ignores `def` and scans
  from whatever the scratch buffer held at index 0 (see Findings); the
  corrected version produces the oracle;
- the two strategy selectors (`DriverScan`, `CrateScan`) and the support
  library (`Support`, `Lanes`).

Element values are mathematical integers. The depth count
`(n as f32).log2().ceil()` is the integer `Prefix.CeilLog2(n)`, the least d
with 2^d >= n. A slice of the source is an `array<int>` when it is written and
a `seq<int>` when it is only read. `Result<(), String>` is `Support.Status`,
whose error carries the numbers the message prints. A lane vector is a `seq`
of `width` values and a mask is a `seq<bool>`. The i8 strategy ids are `int`s.

The key facts are in `prefix.dfy`. After d depths from the layout
x = [def, v_in[0], ..., v_in[n-2]], position k holds the sum of
x[max(0, k-2^d+1) ..= k] (`Prefix.TreeWindow`). Once 2^d >= n, that is the
oracle (`Prefix.TreeComputesScan`). Each tree strategy proves that one of its
depths is `Prefix.Step`, and the rest follows from these two lemmas.

Every strategy indexes `v_out[0]` or slices `v_in[..n-1]`, so it panics when
the lengths agree and are zero. The command line exits before dispatch in
that case. The methods therefore require n >= 1 when the lengths agree, and
model the length-mismatch error path in full.

## Model

| member | source | states |
|---|---|---|
| Prefix.ScanRecurrence | impls/seq/src/lib.rs:24-27 | the oracle satisfies out[0] = def and out[k] = v_in[k-1] + out[k-1] |
| Prefix.RecurrenceDeterminesScan | impls/seq/src/lib.rs:24-27 | any sequence that satisfies the recurrence is the oracle |
| Prefix.ScanIgnoresLast | impls/seq/src/lib.rs:25-27 | the last input element never affects the output |
| Prefix.Layout | src/scan/seq_naive.rs:19-20 | the initial layout has def at 0 and v_in[k-1] at k |
| Prefix.CeilLog2 | src/scan/seq_naive.rs:17 | the depth count is the least d with 2^d >= n |
| Prefix.TreeWindow | src/scan/seq_naive.rs:25-45 | after d depths position k holds the sum of the 2^d layout elements ending at k |
| Prefix.WindowStep | src/scan/seq_naive.rs:29-40 | one depth at offset 2^(d-1) doubles every window |
| Prefix.TreeComputesScan | src/scan/seq_naive.rs:17-45 | CeilLog2(n) depths from the layout give the oracle |
| Prefix.TreeKeepsHead | src/scan/seq_naive.rs:31-32 | no depth changes position 0 |
| Prefix.DivCeil | impls/simd_naive_dbl/src/lib.rs:59 | div_ceil: the chunks cover n, and one chunk fewer would not |
| Prefix.ChunkOfIndex | impls/par_cpu_naive_dbl/src/lib.rs:229-230 | index k lies in chunk k / w |
| Prefix.IndexInChunks | impls/par_cpu_naive_dbl/src/lib.rs:145 | every index below n lies in one of the DivCeil(n, w) chunks |
| Lanes.StoreSelect | impls/simd_naive_dbl/src/lib.rs:108-109 | a masked store writes exactly the enabled lanes that fall inside the slice |
| Support.CheckArgs | deps/support/src/lib.rs:51-61 | Err exactly when the lengths differ, with both lengths in the error |
| Support.DoubleBufferMode.GetAlternate | deps/support/src/lib.rs:508-513 | the alternate mode is the other mode |
| Support.AlternateInvolution | deps/support/src/lib.rs:508-513 | get_alternate is an involution without a fixed point |
| Support.ModeAfterParity | deps/support/src/lib.rs:515-517 | after d swaps from the default A the mode is A exactly when d is even |
| Support.Alloc | deps/support/src/lib.rs:80-85 | n elements, each def |
| Support.Clamp | deps/support/src/lib.rs:98-106 | v_out[i] = min(max(v_in[i], begin), end) below n, the rest unchanged |
| Support.ClampInRange | deps/support/src/lib.rs:103 | a clamped value lies in [begin, end], and values already inside are kept |
| Support.ClampIdempotent | deps/support/src/lib.rs:103 | clamping twice equals clamping once |
| Support.Copy | deps/support/src/lib.rs:126-134 | the destination slice becomes the source, everything else is kept |
| Support.Concat | deps/support/src/lib.rs:108-124 | as written: Err exactly when the destination is longer than a + b, otherwise the destination is a + b |
| Support.ConcatAcceptsOnlyExact | deps/support/src/lib.rs:115-122 | as written, the only destination concat completes on has length exactly a + b |
| Support.ConcatRefusesLargerDestination | deps/support/src/lib.rs:115-119 | sources of lengths 1 and 1 with a destination of length 3 are refused |
| Support.ConcatChecked | deps/support/src/lib.rs:108-124 | corrected: Err exactly when the destination is shorter than a + b, otherwise its prefix is a + b and the rest is kept |
| Support.CopySimd | deps/support/src/lib.rs:153-183 | dst[0..n) = src[0..n) and every later element is unchanged |
| Support.FloorChunks | deps/support/src/lib.rs:163-165 | the full chunks fit in n and leave fewer than width elements |
| Support.CopyChunks | deps/support/src/lib.rs:167-174 | the full-chunk loop copies exactly the first n_chunks * width elements |
| Support.ChunkFits | deps/support/src/lib.rs:169-173 | each full chunk ends inside the coalesced prefix |
| Support.CopyChunk | deps/support/src/lib.rs:170-171 | one all-on chunk copies exactly its slice |
| Support.CopyRemainder | deps/support/src/lib.rs:175-181 | the masked remainder copies exactly [n_coalesced, n) |
| Support.RotateRight | deps/support/src/lib.rs:260-267 | dst[0] = src[n], dst[i] = src[i-1] for 1 <= i < n, the rest kept |
| Support.RotateRightSimd | deps/support/src/lib.rs:269-323 | dst[i] = src[i-1] for 1 <= i < n, the rest kept |
| Support.Swizzle | deps/support/src/lib.rs:325-339 | lane i is src[indices[i]] when indices[i] < N, else def |
| Support.NewMask | deps/support/src/lib.rs:407-416 | lane i is v[i] for i < min(len v, N), false after |
| Support.ShiftedBit | deps/support/src/lib.rs:430 | a shifted flag sets bit i exactly when the flag holds |
| Support.PredBitsAt | deps/support/src/lib.rs:427-431 | bit i of the folded mask is set exactly when i < count and pred(v[i]) |
| Support.FromBitmask | deps/support/src/lib.rs:432 | lane i of the mask is bit i |
| Support.NewMaskPred | deps/support/src/lib.rs:419-433 | lane i is on exactly when i < len v and pred(v[i]) |
| SeqScan.Process | impls/seq/src/lib.rs:17-29 | Err on a length mismatch with v_out untouched, otherwise v_out is the oracle |
| SeqScan.EightElementExample | tests/test-scan.rs:106-110 | the oracle of [3,1,7,0,4,1,6,3] from 0 is [0,3,4,11,11,15,16,22] |
| NaiveScan.SeqNaive | src/scan/seq_naive.rs:11-47 | Err on a length mismatch with v_out untouched, otherwise v_out is the oracle |
| NaiveScan.WriteLayout | src/scan/seq_naive.rs:19-20 | v_out becomes [def, v_in[0..n-1)], the layout every tree strategy starts from |
| NaiveScan.DepthInPlace | src/scan/seq_naive.rs:29-41 | the descending in-place pass equals the simultaneous step |
| DoubleBufferScan.Process | impls/seq_naive_dbl/src/lib.rs:17-70 | Err on a length mismatch with v_out untouched, otherwise v_out is the oracle, for either final mode |
| DoubleBufferScan.Depths | impls/seq_naive_dbl/src/lib.rs:34-65 | after d_end depths the mode is the parity of d_end and the buffer it names holds the tree after d_end depths |
| DoubleBufferScan.DepthInto | impls/seq_naive_dbl/src/lib.rs:42-59 | next[k] is the step of cur for 1 <= k < n, and next[0] is not written |
| SimdScan.JIndices | impls/simd_naive_dbl/src/lib.rs:78-80 | lane i of the j vector is k - offset for the lane's k |
| SimdScan.Masks | impls/simd_naive_dbl/src/lib.rs:81-86 | dis_k and en_kj are disjoint, cover every lane inside the buffer, and en_kj gathers only from [0, n) |
| SimdScan.SimdChunk | impls/simd_naive_dbl/src/lib.rs:74-109 | the chunk's lanes inside the buffer receive the scalar step, nothing else changes |
| SimdScan.ChunkStart | impls/simd_naive_dbl/src/lib.rs:71-74 | every chunk below DivCeil(n, N) starts inside the buffer |
| SimdScan.SimdDepth | impls/simd_naive_dbl/src/lib.rs:66-112 | all chunks of one depth together give the scalar double-buffered step |
| SimdScan.Process | impls/simd_naive_dbl/src/lib.rs:34-129 | Err on a length mismatch with v_out untouched, otherwise v_out is the oracle |
| SimdScan.Depths | impls/simd_naive_dbl/src/lib.rs:62-118 | after d_end depths the mode is the parity of d_end and the buffer it names holds the tree after d_end depths |
| ParCpuScan.CapacityAsWrittenAdmitsOverflow | impls/par_cpu_naive_dbl/src/lib.rs:144-148 | 5120 elements of 8 bytes pass the check as written but do not fit the buffers |
| ParCpuScan.CapacityExact | impls/par_cpu_naive_dbl/src/lib.rs:119-123 | the corrected capacity admits exactly the sizes whose buffers fit |
| ParCpuScan.WorkGroup.Process | impls/par_cpu_naive_dbl/src/lib.rs:224-253 | only the other buffer is written, only inside the chunk, with the scalar step |
| ParCpuScan.Depth | impls/par_cpu_naive_dbl/src/lib.rs:178-198 | chunks run in any order that covers them all give the double-buffered step |
| ParCpuScan.ScanFrom | impls/par_cpu_naive_dbl/src/lib.rs:154-213 | layout, depth loop with mode swaps and final copy give the oracle from buf_a[0] |
| ParCpuScan.LoadBuffers | impls/par_cpu_naive_dbl/src/lib.rs:155-157 | buf_a holds [head, v_in[0..n-1)] and buf_b is an identical, distinct copy |
| ParCpuScan.Depths | impls/par_cpu_naive_dbl/src/lib.rs:178-199 | each depth run in any covering chunk order; afterwards the buffer the final mode names holds the tree after d_end depths |
| ParCpuScan.ChecksAsWritten | impls/par_cpu_naive_dbl/src/lib.rs:142-153 | as written: Ok exactly when the lengths agree and n_out <= BUFFER_LENGTH / size, the length error first, the capacity error reporting n_buf |
| ParCpuScan.Checks | impls/par_cpu_naive_dbl/src/lib.rs:142-153 | corrected: Ok exactly when the lengths agree and the buffers fit, the length error first |
| ParCpuScan.CorrectedCheckStricter | impls/par_cpu_naive_dbl/src/lib.rs:119-123 | every size the corrected check accepts passes the check as written, and the two differ exactly on the sizes whose buffers do not fit |
| ParCpuScan.Process | impls/par_cpu_naive_dbl/src/lib.rs:133-215 | as written: the status is the check as written, v_out is untouched on error, and on success v_out is the scan from the scratch buffer's prior first element, not from def |
| ParCpuScan.IdentityIgnored | impls/par_cpu_naive_dbl/src/lib.rs:135-157 | process as written, run from a zero scratch buffer with def = 5 on [1], leaves [0] in v_out, which is not the oracle [5] |
| ParCpuScan.ProcessWithIdentity | impls/par_cpu_naive_dbl/src/lib.rs:133-215 | corrected: on success v_out is the oracle from def |
| ParCpuScan.WorkerLoop | impls/par_cpu_naive_dbl/src/lib.rs:72-111 | the work groups run are those of the statuses observed before the first Shutdown |
| ParCpuScan.WorkerRunsEveryDepth | impls/par_cpu_naive_dbl/src/lib.rs:178-204 | for the statuses the main thread publishes, each worker runs its chunk at every depth in order |
| Unimplemented.Process | impls/unimplemented/src/lib.rs:15-17 | always Err(Unimplemented), v_out untouched |
| DriverScan.ToI8 | driver/src/scan.rs:20-29 | ids lie in 0..=5 |
| DriverScan.FromI8 | driver/src/scan.rs:159-175 | a strategy exactly for ids 0..=5, and it converts back to the same id |
| DriverScan.ToI8RoundTrip | driver/src/scan.rs:159-167 | from(k as i8) == k for every strategy |
| DriverScan.FlagsPartition | driver/src/scan.rs:126-135 | no strategy is both SIMD and parallel; those flags mark exactly ids 3..=5 |
| DriverScan.ToOptionString | driver/src/scan.rs:137-139 | the option line carries the id as its fourth character and the name after " => " |
| DriverScan.NamesDistinct | driver/src/scan.rs:142-157 | the six display names are pairwise distinct |
| DriverScan.OptionStringsDistinct | driver/src/scan.rs:137-139 | the six option lines are pairwise distinct |
| DriverScan.Dispatch | driver/src/scan.rs:32-60 | the sequential kinds run and yield the oracle, every other kind is Err(Unimplemented) |
| DriverScan.DispatchSimd | driver/src/scan.rs:62-85 | only the SIMD kind runs, every other kind is Err(Unimplemented) |
| DriverScan.DispatchParallel | driver/src/scan.rs:87-112 | the CPU kind runs process as written (its status is the check as written, its result the scan from the scratch head), the non-parallel kinds are Err(Unimplemented) |
| DriverScan.DispatchParallelCorrected | driver/src/scan.rs:87-112 | with the corrected CPU strategy: the corrected status, and on success the oracle from identity |
| CrateScan.ToI8 | src/scan.rs:24-35 | ids lie in 0..=7 |
| CrateScan.FromI8 | src/scan.rs:144-163 | a strategy exactly for ids 0..=7, and it converts back to the same id |
| CrateScan.ToI8RoundTrip | src/scan.rs:144-154 | from(k as i8) == k for every strategy |
| CrateScan.NamesDistinct | src/scan.rs:129-142 | the eight display names are pairwise distinct |
| CrateScan.Seq | src/scan/seq.rs:10-22 | Err on a length mismatch with v_out untouched, otherwise v_out is the oracle |
| CrateScan.Dispatch | src/scan.rs:43-65 | ids 0..=2 run and yield the oracle, ids 3..=7 are Err(Unimplemented) |
| CrateScan.DispatchSimd | src/scan.rs:67-86 | only the SIMD kind runs, every other kind is Err(Unimplemented) |

`Scan::check_args` in src/scan.rs:117-126 is the same function as the
support library's `check_args` and is modelled by `Support.CheckArgs`.

## Left out

- The GPU strategy (impls/par_gpu_naive_dbl): device setup, buffer mapping and an external shader.
- DriverScan.DispatchParallel: the GPU kind is excluded by its precondition, because the GPU strategy is not part of this model. Like ParCpuScan.Process, it also excludes the sizes that make get_buffers panic.
- ParCpuScan.Process: sizes that pass the check as written but whose buffers do not fit (n <= 40960 / size but 2 * n * size > 40960) make get_buffers panic on its slice; a precondition excludes them instead of modelling the panic.
- The thread protocol of the parallel CPU strategy: spawning, the barrier, the status mutex, the acknowledgement channels and their receive-error paths, and joining. A depth is the work groups run one after another; the schedule parameter gives each depth's order.
- The static scratch buffers and `get_buffers`' pointer reinterpretation, `align` and `alloc_aligned`. Their slicing is kept as the `BuffersFit` bound, and the scratch content at index 0 is the `scratch0` parameter.
- Floating-point depth counts: `CeilLog2` is the exact integer value, so float rounding for very large n is not modelled.
- Support.RotateRightSimd: states only positions 1..n, which the SIMD scan relies on before it stores def at 0, and its body is the scalar rotation. The strided gather/scatter phases and their float-driven depth count are not modelled.
- `copy_swizzle_simd`, `swizzle_simd`, the generated `swizzle_const_*` functions, `copy_in_range_simd_masked`, `new_mask_pred_simd`, and `copy_casted` with `ICast`. None of the modelled strategies use them.
- Support.NewMaskPred: the u64 bitmask is modelled as the set of its set bit positions. Shift and OR are the singleton set and union, so the 64-bit word itself is not modelled.
- Integer overflow: i64 additions are unbounded here, so neither the debug-build panic nor release-build wrap-around is modelled.
- Verbose `eprintln!` logging, the command line (`src/main.rs`, `parse_vec`), process exit, `get_options_string`, and the test harnesses. The tests are used only for their expected values.
- `Scan::new` and the `verbose` field: they affect only logging.
- impls/seq_naive/src/lib.rs, src/scan/seq_naive_dbl.rs, src/scan/simd_naive_dbl.rs the crate's SIMD stub src/scan/simd_unimplemented.rs (used by src/scan.rs:83), and the SIMD and parallel unimplemented stubs of the driver are not part of this model. The dispatchers route those kinds to the models of src/scan/seq_naive.rs, impls/seq_naive_dbl, impls/simd_naive_dbl and impls/unimplemented.

## Findings

| source | as written | input that shows it | evidently intended | confidence | as-written member | corrected member |
|---|---|---|---|---|---|---|
| deps/support/src/lib.rs:115 | concat refuses when `n_a + n_b < n_dst`, and the slicing after it panics when `n_a + n_b > n_dst`, so only an exact fit succeeds | a, b of length 1 and a destination of length 3: refused, though the message asks only for a destination at least as large | refuse when `n_dst < n_a + n_b`, fill the prefix otherwise | high, not executed | Support.ConcatRefusesLargerDestination | Support.ConcatChecked |
| impls/par_cpu_naive_dbl/src/lib.rs:144 | `n_buf = BUFFER_LENGTH / size_of::<T>()`, but `get_buffers` slices `2 * n * size_of::<T>()` bytes of each buffer | 5120 elements of 8 bytes: the check passes, and the slice of 81920 bytes overruns the 40960-byte buffer | `n_buf = BUFFER_LENGTH / (2 * size_of::<T>())` | high, not executed | ParCpuScan.CapacityAsWrittenAdmitsOverflow | ParCpuScan.CapacityExact |
| impls/par_cpu_naive_dbl/src/lib.rs:135 | the identity `_def` is never used and `buf_a[0]` is never stored, so the output is offset by the scratch buffer's first element | def = 5, v_in = [1] on a fresh (zeroed) scratch buffer: output [0], the exclusive scan is [5] | store `buf_a[0] = def` after the layout copy | medium, not executed | ParCpuScan.IdentityIgnored | ParCpuScan.ProcessWithIdentity |

`ParCpuScan.Process` models the strategy as written: the check as written
(`ParCpuScan.ChecksAsWritten`) and the unused identity; `DriverScan.DispatchParallel`
calls it, as the driver does. `ParCpuScan.ProcessWithIdentity` is the corrected
strategy, with the corrected check (`ParCpuScan.Checks`) and the identity stored;
`DriverScan.DispatchParallelCorrected` dispatches to it.
