# bslz4_to_sparse: a verified model

A Dafny model of the parts of bslz4_to_sparse that promise to preserve meaning. The library decodes
bitshuffle compressed detector frames, returns the pixels above a cut as a sparse list, and adds
every frame into a powder pattern by a sparse matrix product. What is proved is that the many forms
the data takes on the way say the same thing. `dafny verify dfyconfig.toml` checks the project.

Numbers are exact: weights, pixels and powders are rationals (`real`), integers are unbounded and
every cast, wrap and limit of the source is written out where it happens.

## What is modelled

**The matrix compiler.** `Csc` normalises a matrix and folds the mask in. `BlockCsr`, `Padded`,
`Columns` and `FixedPoint` compile it to about ten layouts; `Layouts` analyses it, chooses the dot
and builds. `FixedPointBits` says what bits and weights a fixed-point matrix may have, `FixedMatrix`
prepares one and bounds the error of its powder. A layout is arrays plus the reading its kernel gives them. A reading is the sequence of
additions "weight times pixel into bin" the kernel performs (`Product`), so "the same linear map"
is a statement about two such sequences: equal, equal without zero weights, or a permutation of each
other. `Routes` is the choice the decoder makes for every block, dense or sparse over a list of
pixels; `Kernels` puts the readings of all dots into block and pixel parts and shows that no choice
can be seen in the powder. `PaddedFill` and `FixedPointFill` fill the arrays step by step;
`FixedPointOverflow` holds the matrices whose sums do overflow.

**The shared plan.** `Family` is a state machine of any number of threads inside
`_Family.layout`: first look without the lock, second look, build, freezing the arrays one by one,
storing, leaving. `FamilyProgress` shows that every call gets back.

**The pipeline.** `Pipeline` parses, describes, resolves and checks once more as the C side does.

**The decoding object.** `Session` is `chunk2sparseCSC` over any sequence of calls, calls that
raise included: codec and mask settled by the first chunk, the layout following the block size, the
automatic dot, the buffers that only grow. `SessionRun` is the object with its fields.
`SessionMeaning` joins it with the kernels: what a call computes. `History` tells codec, steps, dot
and room of an object from the calls alone, without its states.

**Top pixels.** `TopPixels` is the selection rule, on a whole list and block by block;
`TopPixelsRun` and `TopPixelsApply` run it in place as C and numpy do; `TopRequest` carries the
thresholds from floats to the integers C compares; `TopNumpy` is the selection with the float64
comparisons of numpy, rounding being a function on integers. `TopCall` is one call from howmany and
thresholds to the pixels, counts and cuts returned.

**Bounded arithmetic and buffers.** `Unravel` divides by a reciprocal in wrapping 64-bit
arithmetic. `Buffers` is the contiguity check and the DLPack shapes. `Offsets` turns chunk offsets
into addresses. `Overlap` is the aliasing check. `Pins` counts the references of buffer acquisition
on one arbitrary object, for every answer the interpreter can give. `NdarrayLayout` is the
publication of the ndarray layout under release and acquire, with the set of stores and a view per
thread.

**Collect.** The scalar, NEON and VSX loops of the two probes.

## Where the code and its documentation part

The model follows the code. For each of these there is a concrete input or the exact condition.

- Fixed-point sums "cannot overflow" (src/_matrix.py:424-426): they can for uint64 and for int64
  pixels, because the residual step adds up to nnz / 2 to the weights of a bin. They cannot if and
  only if maxval times the integer weights of every bin is below 2^63 (for signed pixels,
  maxval + 1 times them at most 2^63); it suffices that nnz * maxval <= 2^63 (signed, maxval + 1),
  which 8 and 16 bit pixels always meet.
- `normalise_matrix` casts to uint32 without a check: the matrix is kept if and only if entries and
  bin numbers are below 2^32.
- Bin 0xFFFFFFFF doubles as the mark for "no bin" in the histogram layouts: they are the map of the
  matrix if and only if no entry is in that bin.
- The product of `_unravel` "fits in 64 bits": from four columns on. The stored values are right
  also where it wraps.
- The list of a frame "never grows past howmany + one block" (src/pipeline/pipeline.h:159-160): not
  at the last level. Before a block it is within howmany if and only if at most howmany of the
  pixels seen are above the last threshold. The selection is right all the same.
- `_effective` promises the comparison of numpy: numpy compares in float64, so for uint64 and int64
  pixels C and numpy select alike if and only if float64 rounds no pixel of the list down (or
  rounds it above 2^62).
- `describe` of None gives a table that `parse` refuses; the round trip holds for every other p.
- A racing prober "stores the same values" (c2py_runtime/c2py_runtime.h:892-893): only if all types
  named numpy.ndarray have one offset, which is also exactly when the fast path is safe.
- A block of less than a pixel makes the automatic block dots fail with a division by zero, the only
  way in which an automatic dot is refused.

## Support lemmas

Facts that follow from the definitions but are relied on throughout: `LayoutsProof.BuildNames` (a
built layout names its dot, C entry and block size), `LayoutsProof.AutoKnows` (what auto_dot needs
of a matrix for each dot it names), `LayoutsProof.AutoIsNotForFixed` (a fixed-point matrix refuses
the automatic dot), `FixedPointProof.QuantiseFits` (accepted weights fit their type),
`FixedPointSums.BitsBound` (the sum limit alone),
`FixedPointFill.BiggestDistinct` (no entry is the largest of two columns),
`PipelineProof.NamesDistinct`, `BuffersProof.NullStridesAreC` (the strides made for a NULL pointer
are C order), `TopPixelsProof.RaiseBound` and `TopRequestProof.AlikeExactly` (one pixel and one
whole threshold).

## Model

| member | source | states |
|---|---|---|
| `Product.PowderPermutation` | src/_matrix.py:4-6 | Reordering additions changes no bin over exact numbers: what lets a layout visit the entries in its own order. |
| `RoutesProof.MixedIsPowder` | src/pipeline/driver.c:307-332 | For every choice of route per block, and every lists that hold at least the non-zero pixels the map adds, a kernel whose block parts and whose pixel parts are each the map of t computes the powder of t. |
| `Csc.NormaliseAccepts` | src/_matrix.py:58-69 | The checks accept exactly the well-formed matrices with npix + 1 pointers. |
| `Csc.RefusalIsTrue` | src/_matrix.py:58-69 | The reason of a refusal is true of the arrays: pointer count, start, a decrease, end, a bin out of range. |
| `Csc.NormaliseKeepsMatrix` | src/_matrix.py:70-76 | The cast to uint32 leaves an accepted matrix as it is if and only if it has fewer than 2^32 entries and every bin number is below 2^32; nothing is raised otherwise. |
| `Csc.PixAt` | src/_matrix.py:240-241 | The column of an entry, as np.repeat makes it, is the one whose pointer range holds the entry. |
| `Csc.FoldMaskValid` | src/_matrix.py:88-97 | Folding a mask of the right size gives a well-formed matrix of the same bins, its pointers stepping by the count of each active pixel. |
| `Csc.FoldMaskColumns` | src/_matrix.py:83-97 | Column by column: a masked column is empty, an active one has the same bins and weights in the same order. |
| `Csc.FoldMaskTrace` | src/_matrix.py:84-87 | The additions of the folded matrix are those of the original with the masked pixels left out, in order. |
| `Csc.FoldMaskPowder` | src/_matrix.py:84-87 | The folded product is the product of the original matrix on the frame with masked pixels zeroed, every bin, every frame. |
| `BlockCsrProof.SortSorted` | src/_matrix.py:248-253 | The sort by (block, bin, pixel) is sorted and a permutation of the entries. |
| `BlockCsrProof.GroupChange` | src/_matrix.py:254-255 | Consecutive groups have different keys, so none is split. |
| `BlockCsrProof.KeyOrder` | src/_matrix.py:254 | block * (nbins + 1) + bin orders and separates (block, bin) pairs. |
| `BlockCsrProof.FromCscTrace` | src/_matrix.py:231-261 | blk_ptr and bin_ptr tile all entries, no group is empty, bins ascend strictly within a block, every idx is in its block and fits 16 bits; and the kernel reading performs exactly the additions of the matrix, each as often. |
| `BlockCsrProof.FromCscPowder` | src/_matrix.py:231-261 | Every bin of every frame equals the csc product, for every valid matrix and block size 1..65536. |
| `PaddedProof.RowFits` | src/_matrix.py:177-182 | A shifted run stays in its row (shift + count <= width) and the row below nbins. |
| `PaddedProof.FromCscWellFormed` | src/_matrix.py:146-193 | Accepted if and only if the columns are ascending runs and the width is at most 64; then base + width <= nbins for every row, row_ptr splits the rows at the block boundaries, rowmap and pixels are inverse. |
| `PaddedProof.FromCscTrace` | src/_matrix.py:100-104 | Dense and sparse reading perform, zero weights aside, the additions of the matrix in the same order. |
| `PaddedProof.FromCscPowder` | src/_matrix.py:146-193 | Implicit or listed, dense or sparse, the padded layout gives exactly the csc product. |
| `PaddedFill.FillWeights` | src/_matrix.py:179-182 | The loop over k, in place: no weight is written outside its row, none overwritten, and every cell is what the layout says. |
| `PaddedFill.RowMap` | src/_matrix.py:187-189 | rowmap[rows] = arange in place: every occupied pixel holds the place of its row, every other -1. |
| `PaddedFill.Build` | src/_matrix.py:154-193 | The whole compilation, first bins, weights, occupied pixels, rowmap and row pointers filled array by array, returns the layout of PaddedProof, or its refusal. |
| `ColumnsProof.RunStartsAccepts` | src/_matrix.py:201-214 | Accepted if and only if every column is one ascending run; the starts are the first bins. |
| `ColumnsProof.RunsAreTrace` | src/_matrix.py:196-214 | The csc-run reading performs the additions of the csc dot in the same order. |
| `ColumnsProof.RunBinsAreIndices` | src/_matrix.py:556 | Counting up from the starts gives back the indices array. |
| `ColumnsProof.NosplitAccepts` | src/_matrix.py:217-228 | Accepted if and only if the matrix is a histogram: at most one bin per pixel, all weights 1. |
| `ColumnsProof.HistogramIsTrace` | src/_matrix.py:226-228 | The one-bin-per-pixel array says what the csc arrays say if and only if no entry is in bin 0xFFFFFFFF, the mark for none. |
| `ColumnsProof.HistogramMapExactly` | src/_matrix.py:226-228 | So the histogram gives the csc product in every bin of every frame if and only if no entry is in that bin. |
| `ColumnsProof.PermuteAccepts` | src/_matrix.py:447-456 | Accepted if and only if it is a histogram and no two pixels share a bin. |
| `ColumnsProof.PermuteIsProduct` | src/_matrix.py:447-449 | Storing the visited pixels, where the other dots add, gives the matrix product, as long as every mapped pixel with a value is visited and no entry is in the marked bin. |
| `ColumnsProof.PermuteReadBack` | src/_matrix.py:447-449 | Every mapped pixel of the frame is read back from its slot of the output. |
| `ColumnsProof.FoldKeepsKind` | src/_matrix.py:83-97 | Masking keeps runs runs, histograms histograms and permutations permutations. |
| `FixedPointSums.FloorLog2Unique` | src/_matrix.py:318-319 | floor(log2 r) is the only e with 2^e <= r < 2^(e+1). |
| `FixedPointSums.BinBudget` | src/_matrix.py:302-306 | And so for the magnitudes of every bin. |
| `FixedPointProof.QuantiseKeepsIntensity` | src/_matrix.py:326-361 | Per non-empty column the integer weights sum to rint of the sum of the scaled clamped weights; only the first largest is adjusted, the others are within 1/2, it within n/2. |
| `FixedPointProof.ScaledSum` | src/_matrix.py:338 | The sum of the scaled weights is the scaled sum, so the kept sum is rint(2^b * sum). |
| `FixedPointProof.BinError` | src/_matrix.py:340-355 | The rounding errors of a bin, residuals included, add up to at most nnz / 2. |
| `FixedPointSums.WeightSumBound` | src/_matrix.py:326-361 | The integer weights of a bin sum to at most 2^b * rowsum + nnz / 2. |
| `FixedPointSums.SumsFit` | src/_matrix.py:299-361 | No bin sum of any frame of pixels up to maxval reaches 2^63 when nnz * maxval <= 2^63 (nor -2^63 is passed for signed pixels when nnz * (maxval + 1) <= 2^63). |
| `FixedPointSums.NarrowPixelsFit` | src/_matrix.py:424-428 | For 8 and 16 bit pixels the sums always fit int64. |
| `FixedPointSums.SumsFitExactly` | src/_matrix.py:424-426 | The sums of unsigned pixels stay below 2^63 for all frames if and only if maxval times the integer weights of the bin does. |
| `FixedPointSums.SignedSumsFitExactly` | src/_matrix.py:424-426 | The sums of signed pixels stay in int64 for all frames if and only if (maxval + 1) times the integer weights of the bin is at most 2^63. |
| `FixedPointOverflow.WidePixelOverflows` | src/_matrix.py:424-426 | A uint64 matrix for which the chosen bits do overflow: three weights of 2^-42, b = 40, one pixel at its maximum. |
| `FixedPointOverflow.SignedPixelOverflows` | src/_matrix.py:424-426 | An int64 one: two pixels, each shared by three bins of 2^-42, b = 40, integer weights that sum to 2 in a bin. |
| `FixedPointSums.WrappedIsExact` | src/_matrix.py:428-431 | The sum kept modulo 2^64 reads back as the exact sum if and only if that is an int64. |
| `FixedPointSums.NarrowPowderIsExact` | src/_matrix.py:369-374 | For 8 and 16 bit pixels the wrapping kernel leaves the exact sums. |
| `FixedPointFill.SegmentIsColumn` | src/_matrix.py:343-345 | The segments of reduceat between the first entries of the non-empty columns are those columns. |
| `FixedPointFill.FindBiggest` | src/_matrix.py:348-354 | The candidates with their column maximum, kept where the column changes, are the first largest entry of every non-empty column. |
| `FixedPointFill.AddResiduals` | src/_matrix.py:355 | q[biggest] += target - got in place: exactly those entries change, each once, by the residual of its column. |
| `FixedPointFill.Build` | src/_matrix.py:326-361 | Rounding, column sums, candidates, update and checks, step by step, return Quantise, refusals included. |
| `FixedPointBitsProof.BitsExactly` | src/_matrix.py:299-323 | The bits are b if and only if 4 <= b <= 40, with b bits every weight is within the limit of its type and every row sum times (maxval + 1) at most 2^62, and with b + 1 not (or b is 40); refused if and only if 4 bits do not fit. Stated on the weights and row sums. |
| `FixedPointBitsProof.ClampedExactly` | src/_matrix.py:332-337 | Weights are refused if and only if a negative one is beyond a millionth of every magnitude; else each becomes max(w, 0). |
| `FixedPointBitsProof.QuantiseExactly` | src/_matrix.py:326-361 | Quantising succeeds if and only if clamping does and in every column the other weights round within the limit and what is left of the rounded sum for the largest is in 0..limit. |
| `FixedPointBitsProof.ChosenBitsQuantise` | src/_matrix.py:326-361 | With the chosen bits quantising succeeds whenever the largest weight of each column of several stays half its length away from both limits. |
| `FixedMatrixProof.MakeExactly` | src/_matrix.py:417-444 | fixed_point_matrix succeeds if and only if the width is 16 or 32, the pixels are integers, and the weights quantise with the most bits that fit 2^wbits - 1 and the largest pixel. |
| `FixedMatrixProof.MadeError` | src/_matrix.py:432-443 | The exact sum of every bin of every frame of pixels up to a limit is within limit * entries / 2 of the scale times the product of the clamped weights. |
| `FixedMatrixProof.FixedPowder` | src/__init__.py:714-722 | From the float matrix to the powder: on every integer dot, frame, bin and routes, the int64 the kernel leaves is within limit * entries / 2 of the scale of the layout times the product of the clamped matrix, when the exact sum is an int64. |
| `FixedMatrixProof.FixedPowderDivided` | src/__init__.py:797-800 | So the powder divided by powder_scale is off the product by at most limit * entries / 2 over the scale. |
| `LayoutsProof.BuildMeasures` | src/_matrix.py:547-578 | Every accepted layout has a scale exactly for the three fixed-point dots, that of the fixed-point matrix; its powder is int64 for them, the pixel type for csc-permute, else float64. |
| `LayoutsProof.BuildExactly` | src/_matrix.py:529-578 | build accepts if and only if the dot can represent the matrix: fixed-point weights of its width, runs, a histogram, distinct bins, at most 64 bins per pixel, a block size in range. |
| `LayoutsProof.AnalyseMeans` | src/_matrix.py:461-473 | analyse finds the most bins of a pixel, whether it is a histogram, whether the columns are runs, and whether fewer than half of the pixels reach a bin. |
| `LayoutsProof.AutoChooses` | src/_matrix.py:479-502 | The automatic dot, in terms of the matrix, the CPU, the block size and the pixels. |
| `LayoutsProof.PaddedMeasures` | src/_matrix.py:154-193 | A padded layout is as wide as the most bins of a pixel (at least 1) and listed if and only if fewer than half of the pixels reach a bin. |
| `LayoutsProof.BuildReadsItsKey` | src/_matrix.py:641-647 | build depends on the block size only for the padded and bsb-csr dots and on the pixel type only for csc-permute. |
| `KernelsProof.BuildIsProduct` | src/_matrix.py:529-578 | Every layout build accepts, of every float dot, computes the csc product in every bin of every frame, for every choice of route per block and lists of the sparse blocks. |
| `KernelsProof.MaskedBuildIsProduct` | src/_matrix.py:84-87 | From raw matrix and mask to powder: the layout of the folded matrix computes the raw product on the masked frame, whatever the routes. |
| `KernelsProof.BuildIntIsSum` | src/_matrix.py:547-558 | What the wrapping accumulation of the three integer dots leaves in a bin, on any routes, is the exact sum of weight times pixel if and only if that is an int64; the layout names the scale of the matrix and an int64 powder. |
| `KernelsProof.NosplitIntIsExact` | src/__init__.py:726-730 | The int64 sums of csc-nosplit-int, for pixels of at most 32 bits and fewer than 2^31 of them, are the matrix product. |
| `LayoutsProof.AutoIsAccepted` | src/_matrix.py:479-502 | build of the automatic dot succeeds if and only if the block size is positive or the dot does not depend on it (a zero block size is a division by zero). |
| `LayoutsProof.AutoIsOneWay` | src/_matrix.py:490-502 | If the automatic dot of some block size depends on the block size, it is the automatic dot of every block of at most 8192 pixels. |
| `FamilyProof.KeyDecides` | src/_matrix.py:646-647 | Two requests with one reduced key have the same fresh build. |
| `FamilyProof.StepKeeps` | src/_matrix.py:648-658 | Every step of every thread keeps the invariant: lock ownership, each key built at most once, stored layouts equal to a fresh build and frozen. |
| `FamilyProof.RunKeeps` | src/_matrix.py:586-591 | The invariant holds after every run: any threads, any requests, any interleaving. |
| `FamilyProof.RunGrows` | src/_matrix.py:641-643 | A stored layout stays stored and is never replaced. |
| `FamilyProof.OneLayoutForAll` | src/_matrix.py:641-658 | Two threads that return from requests of one key, at any two moments, got the same object; it equals a fresh build for both, its key was built once, none of its arrays is writeable then or later. |
| `FamilyProof.ObjectIsKey` | src/_matrix.py:641-643 | Two requests, at any two moments of a run, get the object of one address if and only if they have one key. |
| `FamilyProof.FailuresAreNotKept` | src/_matrix.py:644-645 | A raised error is that of build itself, and neither the layouts nor the build history hold the key. |
| `FamilyProgress.StepAdvances` | src/_matrix.py:641-658 | Every step of a thread in a call brings it a stage nearer to its return or leaves it fewer arrays to freeze, and moves no other thread. |
| `FamilyProgress.StepsUnlessLocked` | src/_matrix.py:641-658 | A thread cannot step if and only if it waits for a lock that is held. |
| `FamilyProgress.NoDeadlock` | src/_matrix.py:641-658 | At every moment of every run each thread can step, or the thread that holds the lock can. |
| `FamilyProgress.LookExactly` | src/_matrix.py:648-650 | A stored layout is returned without the lock, whoever holds it; a missing one is waited for. |
| `PipelineProof.ParseValueExactly` | src/_pipeline.py:119-136 | A value is read as the number of its name, as itself when in the table, as auto when absent; unknown names, numbers outside and other types are refused, each with its error. |
| `PipelineProof.ParseExactly` | src/_pipeline.py:139-155 | What parses, if and only if: None, 0, six values, or a dict of known steps, all of whose values are read; and it parses to them. |
| `PipelineProof.ResolvedAuto` | src/_pipeline.py:167-191 | Every step left automatic gets: the decoder of the codec, no mask test exactly for a full mask, for uint16 the lowest usable untranspose of 1..4 or kcb, for uint16 and uint32 the lowest usable collect of 1..5 or scalar, else kcb and scalar; route bpp; the automatic dot. |
| `PipelineProof.NumbersNameValues` | src/_pipeline.py:31-90 | The step numbers used elsewhere are those of the names. |
| `PipelineProof.NumbersNameDots` | src/_pipeline.py:72-90 | And so for the dots. |
| `PipelineProof.CResolveExactly` | src/pipeline/registry.c:162-190 | bslz4_resolve returns 0 if and only if every step is known and available, the u16 kernels have u16 pixels, the vector collects u16 or u32, and the dot is of this entry and takes the pixels. |
| `PipelineProof.CheckedExactly` | src/_pipeline.py:210-249 | The checks accept exactly the filled values that satisfy every constraint, and return those. |
| `PipelineProof.DescribeRoundTrip` | src/_pipeline.py:252-261 | For every p that parses, parse(describe(p)) = parse(p) if and only if p is not None: describe(None) is the table of all values, which parse refuses. |
| `PipelineProof.DescribeNames` | src/_pipeline.py:252-261 | A description holds every step, by the name of its value when set and open otherwise. |
| `PipelineProof.ErrorIsTrue` | src/_pipeline.py:210-249 | The error of a refused pipeline is true of its filled values: the first step that cannot run here, or the data, mask or pixel type they do not suit. |
| `PipelineProof.ResolveSatisfies` | src/_pipeline.py:194-249 | A resolved pipeline satisfies every constraint of CPU, data and pixel type and keeps every value the user set. |
| `PipelineProof.ExplicitIsKept` | src/_pipeline.py:194-249 | A pipeline with every step set is returned as it is if and only if it satisfies the constraints, and is raised otherwise. |
| `PipelineProof.ResolveIsIdempotent` | src/_pipeline.py:194-249 | resolve of a resolved pipeline is itself, whatever the automatic dot would be then. |
| `PipelineProof.AutomaticResolves` | src/_pipeline.py:167-191 | A fully automatic pipeline never raises when the fallback values run here and the automatic dot suits the pixels; every step is then the automatic one. |
| `PipelineProof.AutoDotFits` | src/_pipeline.py:238-248 | The dot auto_dot names is one that resolve accepts for that CPU and pixel type. |
| `PipelineProof.FullBuild` | src/pipeline/registry.c:120-155 | The availability that the lemmas about objects assume is that of a build which runs every value of every table. |
| `PipelineProof.CAcceptsResolved` | src/pipeline/registry.c:162-190 | bslz4_resolve accepts what resolve returns through the entry of its dot, also with decode replaced by pixels or mask by planes. |
| `PipelineRun.ResolveLoop` | src/_pipeline.py:202-249 | The loop that fills and checks one step after the other returns Resolve, the first failing check included. |
| `SessionProof.CreateInv` | src/__init__.py:745-795 | A new object satisfies the invariant: pipeline, dot and layout agree, the values satisfy every constraint. |
| `SessionProof.AutomaticCreates` | src/__init__.py:745-795 | With nothing chosen by the user an object can always be made. |
| `SessionProof.CodecSettles` | src/__init__.py:813-820 | Resolving again for the codec of the first chunk never fails and changes the decode step alone, so the layout stands. |
| `SessionProof.RebuildRefused` | src/__init__.py:847-857 | A block layout built for one block size is refused for another if and only if that is zero or, for bsb-csr, over 65536. |
| `SessionProof.FollowBlockKeeps` | src/__init__.py:845-858 | Following the block size keeps the invariant, failed or not; it fails exactly for a size the layout cannot have, and changes nothing at the default size. |
| `SessionProof.StepKeeps` | src/__init__.py:865-876 | Every call keeps the invariant, one that raises too; it raises if and only if the layout depends on the block size and cannot be had for the new one, never for an automatic dot and a block of a pixel or more. |
| `SessionProof.StepSendsAccepted` | src/__init__.py:865-914 | What a call sends passes every check of the C side: the pipeline names the dot of the layout, the layout is for the block size of the call, pointer arrays and workspace are long enough; also on the pixel path, which copies the pipeline first. |
| `SessionProof.EveryCall` | src/__init__.py:813-914 | The same for the next call after any sequence of compressed and from_frames calls of an object that could be made. |
| `SessionMeaning.SentIsProduct` | src/__init__.py:865-914 | Without fixed-point weights the layout a call sends computes the product of the matrix the object was made with, every frame, bin and route. |
| `SessionMeaning.SentIsSum` | src/__init__.py:714-722 | With fixed-point weights what it leaves in a bin is the exact sum if and only if that is an int64. |
| `SessionMeaning.EveryPowder` | src/__init__.py:707-745 | Of any object that could be made, after any sequence of calls, the next powder is the product of its matrix. |
| `SessionRun.Decoder.SettleFirstCodec` | src/__init__.py:813-820 | In the fields, as SettleCodec says: an open codec becomes zstd exactly for a zstd first chunk, and nothing changes otherwise. |
| `SessionRun.Decoder.Rebuild` | src/__init__.py:843-858 | The fields follow the block size as FollowBlock says, also when build raises midway. |
| `SessionRun.Decoder.Reserve` | src/__init__.py:831-863 | Buffers and layout after a call are those of EnsureCapacity. |
| `SessionRun.Decoder.Run` | src/__init__.py:865-876 | The object updated in place is the state machine, call by call; what it sends is accepted. |
| `HistoryProof.AfterSettles` | src/__init__.py:745-914 | Of an object that could be made, after any calls, told from the calls alone: codec, each of the six steps (the user's, or the automatic one for the codec; the mask by the first chunk), the dot by the block sizes, the room by the most frames. |
| `HistoryProof.EverySent` | src/__init__.py:813-914 | What the next call sends: decode is pixels for frames, else the user's or the automatic one, zstd if and only if the settled codec is; mask, untranspose, collect, route and dot as settled by all the calls; rows for the most frames of them. |
| `HistoryProof.FirstChunkDecides` | src/__init__.py:813-820 | An object with codec and decode step open has, after any calls, the codec of the first compressed one. |
| `HistoryProof.CodecSettled` | src/__init__.py:813-820 | One call turns an open codec into that of its chunk, and the decode step with it. |
| `HistoryProof.MaskSettled` | src/__init__.py:319-353 | An automatic mask of uint16 pixels becomes planes if and only if the blocks are at most 8192 pixels, a multiple of 64, the trial decode works and at least half of the masked pixels hold 65535. |
| `HistoryProof.PastFirst` | src/__init__.py:865-872 | The first compressed call of a history is the one before which only frames came. |
| `HistoryProof.PastMost` | src/__init__.py:831-841 | Its room is the most frames of a call. |
| `HistoryProof.CreatesExactly` | src/__init__.py:745-795 | An object can be made if and only if its pipeline resolves for the codec and its dot can represent the matrix in blocks of 8192 bytes. |
| `HistoryProof.OwnDotYields` | src/__init__.py:770-776 | A fixed-point matrix refuses a pipeline that is neither None nor a dict, and changes no value the user gave. |
| `HistoryProof.FixedCreates` | src/__init__.py:770-793 | With nothing chosen a fixed-point matrix makes an object if and only if the pixels are integers and, for 16-bit weights, its columns are runs; the powder is int64 with the scale of the matrix. |
| `TopPixelsProof.KeepCount` | src/_toppix.py:50-53 | Filtering keeps exactly the pixels above the threshold, as often as they occur. |
| `TopPixelsProof.SelectMeans` | src/_toppix.py:1-8 | A selection has at most howmany pixels; within the limit, or without thresholds, it is the first howmany of the list; else those above the lowest level that leaves fewer than howmany, or the last. |
| `TopPixelsProof.RaiseTracks` | src/pipeline/driver.c:111-122 | Raising keeps the list equal to the pixels seen above the level, with every lower level over its limit, and stops within the limit or at the last level. |
| `TopPixelsProof.IncrementalIsSelect` | src/_toppix.py:16-18 | For every split of a frame into blocks, filtering as the blocks come gives the kept list, level and count of top_pixels on the whole list. |
| `TopPixelsProof.ListBoundExactly` | src/pipeline/pipeline.h:157-166 | Before a block is added the list is within howmany if and only if at most howmany of the pixels seen are above the last threshold (the cut, when there is none). |
| `TopPixelsProof.ListBound` | src/pipeline/pipeline.h:159-160 | While that holds a list stays within howmany and one block. |
| `TopPixelsProof.LastLevelGrows` | src/pipeline/pipeline.h:157-166 | At the last level the list does grow past howmany and a block. |
| `TopPixelsRun.FilterGt` | src/steps/kernels.cpp:101-116 | The in-place compaction, its early return included, leaves the pixels above the threshold, values and addresses, in order. |
| `TopPixelsRun.TopRaise` | src/pipeline/driver.c:111-122 | The loop over levels on the arrays is Raise. |
| `TopPixelsRun.DecodeFrame` | src/pipeline/driver.c:310-456 | Raise before every block, collect, raise again, truncate: the arrays hold the selection of top_pixels on all pixels above the cut. |
| `TopPixelsApply.SelectRow` | src/_toppix.py:56-78 | top_pixels on a row of the batch, in place: the selection, the cut and the count; all other entries unchanged. |
| `TopPixelsApply.Apply` | src/_toppix.py:146-158 | apply on every frame: each gets the selection of its own old row, counts and cuts reported. |
| `TopRequestProof.DefaultsSorted` | src/_toppix.py:29-30 | The default thresholds are sorted and none is below the cut. |
| `TopRequestProof.EffectiveAgrees` | src/_toppix.py:85-111 | A pixel above the cut is above a threshold (infinities included) if and only if it is above the integer that stands for it. |
| `TopRequestProof.LevelsFromCut` | src/pipeline/pipeline.h:162-163 | The integer thresholds are non-decreasing and not below the cut. |
| `TopRequestProof.EffectiveSelects` | src/_toppix.py:85-111 | Selecting by the integer thresholds keeps the same pixels, level and count as by the float ones, both compared exactly. |
| `TopRequestProof.NarrowIsNative` | src/_toppix.py:85-111 | For integer pixels of at most 32 bits there are always integer thresholds. |
| `TopRequestProof.RequestRoundTrip` | src/bslz4_to_sparse.c:15-28 | C reads back exactly the array Request encodes, and an empty one as no limit. |
| `TopRequestProof.AcceptedIsEncoded` | src/bslz4_to_sparse.c:15-28 | Whatever C accepts begins with the encoding of what it reads. |
| `TopRequestProof.RequestFits` | src/_toppix.py:127-129 | The array fits int64 if and only if there are no thresholds or the cut is below 2^63 (uint64 cuts above raise). |
| `TopRequestProof.ClampSelects` | src/_toppix.py:127-129 | howmany clamped to 2^31 - 1 selects the same of a frame of at most that many pixels. |
| `TopRequestProof.NativeIsSelect` | src/_toppix.py:114-144 | Encode, decode and block-by-block selection together are the selection on all pixels above the cut with the thresholds as given, compared exactly. |
| `TopNumpyProof.NumpyIsSelect` | src/_toppix.py:50-78 | Where every float64 comparison agrees with the exact one, the numpy selection keeps the same pixels, level and count. |
| `TopNumpyProof.SelectsAlikeExactly` | src/_toppix.py:50-53 | For a list of integer pixels, numpy and C select alike at every limit and all float64 thresholds up to 2^62, fractional ones too, if and only if float64 rounds no pixel of it down (or rounds it above 2^62). |
| `TopNumpyProof.UnfaithfulDiffers` | src/_toppix.py:85-88 | A pixel that float64 rounds down gives a limit and a threshold for which numpy counts fewer pixels than C. |
| `TopNumpyProof.NativeIsNumpy` | src/_toppix.py:16-18 | What C does with a request, block by block, is what numpy selects afterwards: for all integer pixels of at most 32 bits, for float pixels, and for 64-bit pixels float64 does not round down. |
| `TopRequestProof.SmallIsExact` | src/_toppix.py:50-53 | Integers up to 2^53 survive the conversion to float64, so for pixels of at most 32 bits numpy compares exactly. |
| `TopRequestProof.WidePixelDiffers` | src/_toppix.py:85-88 | Pixel 2^53 + 1 at threshold 2^53: C keeps it, numpy does not. |
| `TopRequestRun.EffectiveLoop` | src/_toppix.py:85-111 | The loop that appends a level at a time, or gives up, returns EffectiveAll. |
| `TopCallProof.AcceptsExactly` | src/bslz4_to_sparse.c:15-28 | C accepts a request if and only if it is empty, or holds two counts in range and at least so many thresholds; empty, and only that, is no limit. |
| `TopCallProof.EmptyIsEverything` | src/bslz4_to_sparse.c:12-18 | For an empty request C leaves every pixel above the cut, for every split into blocks. |
| `TopCallProof.EffectiveExactly` | src/_toppix.py:85-111 | There are integer levels if and only if the cut is finite (whole for float pixels) and every threshold is one C compares as numpy does: no infinity and at most 2^62 for 64-bit and float pixels, whole and held by the type for float pixels. |
| `TopCallProof.DefaultsDouble` | src/_toppix.py:29-30 | The 16 default thresholds start at max(cut, 1) and double. |
| `TopCallProof.OverflowsExactly` | src/_toppix.py:122-131 | The request array is beyond int64 if and only if C is to select, with thresholds, above a cut of 2^63 or more. |
| `TopCallProof.FrameIsPromised` | src/_toppix.py:114-158 | A whole call for every howmany, None included, and all thresholds, given or default: request, C reading and collecting, finish. Unless it is beyond int64 each frame gets the pixels, last_nabove and last_cut of the numpy selection from all its pixels above the cut, whichever side selected; where C selects, for pixels that float64 does not round down. |
| `TopCallProof.NearestDouble` | src/_toppix.py:50-53 | The conversion of an integer gives a float64, the nearest one, and the even one of two as near. |
| `TopCallProof.DoubleMeans` | src/_toppix.py:50-53 | The float64 integers are those of 53 significant bits. |
| `TopCallProof.HeldMeans` | src/_toppix.py:105-106 | float32 holds an integer if and only if it has 24 significant bits and is below 2^128. |
| `UnravelProof.ReciprocalDivides` | src/__init__.py:253-262 | index * ceil(2^40 / nfast) >> 40 is index / nfast for every nfast below 2^14 and index below 2^26. |
| `UnravelProof.QuotientIs` | src/__init__.py:267-269 | With the product wrapped at 64 bits the quotient is right modulo 2^24. |
| `UnravelProof.FastPathDivides` | src/__init__.py:267-274 | The stored uint16 row and column are quotient and remainder modulo 2^16, also where the product wraps. |
| `UnravelProof.ProductFitsExactly` | src/__init__.py:257-262 | The product fits 64 bits for all indices of the fast path if and only if nfast >= 4. |
| `UnravelProof.RowColBack` | src/__init__.py:253-257 | row * nfast + col is the index again if and only if neither was cut to 16 bits. |
| `UnravelRun.UnravelIndices` | src/__init__.py:263-274 | The loop, fast or by divmod, stores quotient and remainder of every index. |
| `BuffersRun.CheckContiguity` | c2py_runtime/c2py_runtime.h:444-501 | Accepts if and only if strides are absent, the buffer is empty, or the strides are C or F order up to axes of length 1; reports the axes, C order first. |
| `BuffersProof.ExpectedWithin` | c2py_runtime/c2py_runtime.h:474-480 | No product the check forms exceeds the bytes of a non-empty buffer, so none overflows. |
| `BuffersProof.ContiguousIsOneToOne` | c2py_runtime/c2py_runtime.h:444-501 | For an accepted non-empty buffer, index -> sum of index * stride is one to one from the index box onto the multiples of itemsize in [0, len). |
| `BuffersProof.AxesMean` | c2py_runtime/c2py_runtime.h:444-501 | Of the two axes reported for an accepted strided buffer the fastest steps by one item and the slowest spans the buffer, unless of length 1. |
| `BuffersProof.NonEmptyExactly` | c2py_runtime/c2py_runtime.h:1103-1116 | A non-empty tensor with NULL strides is rejected for size if and only if an axis or its bytes exceed Py_ssize_t. |
| `BuffersProof.EmptyTooLarge` | c2py_runtime/c2py_runtime.h:1127-1137 | An empty tensor can still be rejected: shape (0, 2^62, 2). |
| `BuffersRun.PinShape` | c2py_runtime/c2py_runtime.h:1093-1145 | Shape and strides in the buffers of the pin, len, and exactly when it is too large. |
| `Offsets.OffsetsToPointers` | src/bslz4_to_sparse.c:154-169 | All offsets become addresses inside the base, or none is changed and some chunk was out of bounds. |
| `Pins.AcquireBuffer` | c2py_runtime/c2py_runtime.h:255-294 | The reference the buffer came with, held exactly on success; the Python 2 fallback holds none. |
| `Pins.PinNdarray` | c2py_runtime/c2py_runtime.h:822-983 | One reference on the array, or the buffer of the first probe; failing paths hold nothing. |
| `Pins.PinDlpack` | c2py_runtime/c2py_runtime.h:992-1176 | Method, arguments, keywords and capsule are given back on every path; success holds the capsule alone. |
| `Pins.TakenHolds` | c2py_runtime/c2py_runtime.h:1217-1250 | Whatever backend succeeds, the pin holds one reference: on the array, on the capsule, or what GetBuffer gave. |
| `Pins.BackendsExactly` | c2py_runtime/c2py_runtime.h:822-1176 | What each backend takes and what it fails on, if and only if: a writable request fails on a read-only array or tensor and leaves a legacy one to the next backend. |
| `Pins.TakenIsAllowed` | c2py_runtime/c2py_runtime.h:1217-1250 | A pin to be written to is never on a read-only array, nor on a tensor that is read-only or does not say; all earlier backends declined. |
| `Pins.FailsExactly` | c2py_runtime/c2py_runtime.h:1217-1250 | Pinning fails if and only if some backend fails after the earlier ones declined, or all decline. |
| `Pins.Acquire` | c2py_runtime/c2py_runtime.h:1217-1250 | The first backend that does not decline decides; a failure holds nothing and leaves an exception, a success holds what the pin says. |
| `Pins.Unpin` | c2py_runtime/c2py_runtime.h:1183-1211 | Gives the reference back once; a pin that holds none is left alone whatever its kind. |
| `Pins.Cleanup` | src/bslz4_to_sparse_wrapper.c:427-440 | Unpinning all pins, acquired or not, gives back exactly what they hold. |
| `Pins.Call` | src/bslz4_to_sparse_wrapper.c:369-440 | A wrapper returns with every reference given back however far it came, and runs the implementation if and only if every argument was pinned and no writable buffer shares a byte with another. |
| `Overlap.CheckNoOverlap` | c2py_runtime/c2py_runtime.h:410-432 | Accepts if and only if no writable buffer shares a byte with another, for buffers whose end is an address. |
| `NdarrayLayoutProof.ApplyKeeps` | c2py_runtime/c2py_runtime.h:891-896 | Every access keeps it: a published type is an array type and was published by a thread that had stored an offset. |
| `NdarrayLayoutProof.RunKeeps` | c2py_runtime/c2py_runtime.h:844-915 | Through every run of any number of threads the invariant holds, and every fast path reads the offset of its type when the array types have one offset. |
| `NdarrayLayoutProof.ClashRun` | c2py_runtime/c2py_runtime.h:891-896 | A run in which two racing probers of types with different offsets make a thread read the wrong one. |
| `NdarrayLayoutProof.SafeExactly` | c2py_runtime/c2py_runtime.h:844-915 | Every run of two or more threads is safe if and only if all types named numpy.ndarray have one offset. |
| `Collect.HitsExactly` | tools/bslz4_neon_collect_probe.c:48-60 | A pixel is collected, with its value, if and only if it is unmasked and above the cut; addresses ascend. |
| `Collect.SkippedAddNothing` | tools/bslz4_neon_collect_probe.c:78-85 | A vector without a lane above the cut adds nothing, whatever the mask. |
| `Collect.CollectScalar` | tools/bslz4_neon_collect_probe.c:48-60 | The scalar loop writes the hits. |
| `Collect.CollectNeon` | tools/bslz4_neon_collect_probe.c:94-154 | The gated vector loop with its tail writes the values, addresses and count of the scalar loop, for every n, mask, cut and lane width. |
| `Collect.CollectVsx` | tools/bslz4_power9_collect_probe.c:113-170 | The same with the any-above gate. |

## Left out

- Floating-point rounding of weights, sums and log2: layouts reorder additions, so equality is over
  exact numbers. Infinite and NaN pixel values are not represented either.
- TopRequestProof.EffectiveSelects: compares pixels exactly, as C does; the float64 comparison of
  numpy is in TopNumpyProof.NativeIsNumpy.
- KernelsProof.BuildIsProduct: for the layouts with a mark for "no bin" it needs that no entry is in
  the marked bin; that this is exact is ColumnsProof.HistogramMapExactly.
- NdarrayLayoutProof.SafeExactly: takes the probed offset of a type as given; that the scan of
  object memory finds it, and the reading of the array header, are not modelled.
- FamilyProof.RunKeeps: build is one step, and the arrays it makes are names; `_info`, pickling and
  the `.base` of views whose parent stays writeable are not modelled.
- HistoryProof.MaskSettled: the number of masked pixels at 65535 that the trial decode finds is a
  parameter of the call, as are the codec and block size in the first chunk; decoding is not part of
  this model.
- SessionProof.StepSendsAccepted: checks of the compressed data itself (headers, lengths, a chunk of
  another codec than the settled one) are not modelled.
- Pins.Call: the arguments, their answers and their buffers are fixed before the call; the
  implementation between pinning and cleanup holds no references of its own.
- PaddedFill.FillWeights: `new_base`, `rows` and `row_ptr` are not narrowed to int32.
- KernelsProof.NosplitIntIsExact: the final cast of the int64 sums to float64, which rounds above
  2^53, is not modelled.
- The kernels' SIMD code, staging buffers and prefetching (src/steps/dot_csc.hpp,
  src/steps/dot_padded.hpp, src/steps/dot_bsbcsr.hpp): only the additions they perform.
- LZ4, zstd, bit transposition and the decode steps: not part of this model.
- `FixedPointMatrix.check`, `_snapshot` and `to_scipy`: attribute checks and copies.
- TopCallProof.FrameIsPromised: default thresholds are the exact products; those of a cut that
  float64 does not hold are compared as they are, not rounded first.
- FamilyProgress.NoDeadlock: the lock is not fair; a thread may wait for as long as others keep
  taking it.
- `_cut_array`, `thresholds` validation and error texts: one-branch members; cuts enter as values.
- Negative csc indices: indices are naturals, as their uint32 form is.
- `c2py_*_ll`, format characters and byte order: easy members that no main result needs.
- Python 2 without PEP 3118 is in the reference counting only.
- HDF5 access, the loader, CPU probing, the conveyor, CUDA, benchmarks, plots, build scripts: I/O
  and glue.
