# neurust core, modelled in Dafny

neurust is a Rust tensor library with two layers:

- **Dense arrays** (`src/linalg`): an n-dimensional `Array` is a shape plus a row-major buffer.
  - Elementwise arithmetic with scalars and with other arrays. Between arrays it broadcasts by trailing alignment, driven by a `BroadcastIterator` that yields pairs of slices.
  - Batched matrix product and transpose of the last two dimensions.
  - Reductions along one axis or all axes (`reduce`, `reduce_sum`, `reduce_prod`, `reduce_max`, `reduce_min`, `reduce_mean`).
  - Indexing and strided views (`s`, `ArrayView::to_array`).
  - In-place (`_assign`) variants of all of the above.
- **Reverse-mode automatic differentiation** (`src/graph`): a graph of operator nodes (`Variable`, `Placeholder`, the arithmetic operators, `MatMulOp`, `NegOp`, `ReduceSumOp`, `ReduceMeanOp`, `WrapperOp`).
  - `value` evaluates a node with a compute cache; `eval` does the same with a fresh cache.
  - `grad` walks the graph from the root with a stack of (node, parent) edges. At each pop it asks the parent's `compute_accum_grad` for the node's contribution and sums it into a map of gradients.

The model follows the code, including where the code differs from its own documentation:

- A panic becomes an `Err` result, or a `Fail` outcome for a check that returns nothing. The model does not abort.
- `SubOp` passes `-grad` to *both* inputs, and `SubScalarOp` passes `-grad`.
- `DivOp` passes `grad * (-1 / y²)` to its denominator, with no factor `x`.
- `ReduceMeanOp` divides its gradient by the axis *index*, not by the axis length.
- A reduction over every axis folds the whole buffer onto zero, so `reduce_prod(None)` is always 0 and `reduce_max(None)` of negative numbers is 0.
- A placeholder takes the fed array whatever its shape.
- `check_shapes_matmul_arrays` never compares the inner dimensions.
- `to_array` on a rank-0 array underflows.
- `grad` re-propagates a node's *whole* running total each time the node is popped. A node reached along two paths is therefore over-counted: `r = p + p` with `p = -x` has gradient `-2`, but `grad` returns `-3` (`GradientExamples.DoubledPathGradient`).

Modules, one per file:

- `Outcomes`: `Result` and `Outcome`.
- `Arith` and `Layout`: index arithmetic, `Product`, `RowMajor`, `Unrank`.
- `Utils`: shape checks, the broadcast rule, 2-D transpose.
- `ArrayCore`: `new`, `from_vec`, indexing.
- `Broadcast`: the iterator.
- `Elementwise`: `compute_elementwise_with_other_array`.
- `ArrayOps`: the operators, map and transpose.
- `MutableArrays`: the `_assign` family on a class that owns its shape and buffer.
- `Matmul`: the 2-D kernel.
- `ArrayMatmul`: the batched product.
- `Reduction`: reductions.
- `ArrayViews`: views.
- `Graph`: nodes, forward evaluation, the compute cache.
- `Gradients`: local gradient rules and `grad`.
- `GradientExamples`: the graph tests and the over-count.

## Model

| member | source | states |
|---|---|---|
| ArrayCore.New | src/linalg/array.rs:43-51 | Succeeds exactly when no dimension is zero; the result has the given shape and holds `init` at every position. |
| ArrayCore.FromVec | src/linalg/array.rs:72-82 | Succeeds exactly when no dimension is zero and the buffer holds as many elements as the shape's product; the array then wraps that very buffer. |
| ArrayCore.CheckIndex | src/linalg/array.rs:167-185 | Passes exactly when the index has one entry per dimension and each entry is below its dimension. |
| ArrayCore.ComputeDataIndex | src/linalg/array.rs:187-195 | The loop from the last dimension to the first computes the row-major offset, which lies inside the buffer for every in-bounds index. |
| ArrayCore.Get | src/linalg/array.rs:1142-1149 | Fails exactly when the index is out of bounds; otherwise returns the element at the index's row-major offset. |
| Layout.RowMajorBound | src/linalg/array.rs:187-195 | An in-bounds coordinate addresses an element inside the buffer. |
| Layout.RowMajorInjective | src/linalg/array.rs:187-195 | Distinct in-bounds coordinates have distinct offsets. |
| Layout.UnrankRowMajor | src/linalg/array.rs:187-195 | Unranking the offset of an in-bounds coordinate gives the coordinate back, so offsets and coordinates correspond one to one. |
| Utils.CheckShapePositive | src/linalg/utils.rs:4-13 | Passes exactly when no dimension is zero; the empty shape passes. |
| Utils.CheckShapesTheSame | src/linalg/utils.rs:16-20 | Passes exactly when the two shapes are equal. |
| Utils.CheckShapesMatmulArrays | src/linalg/utils.rs:24-46 | Passes exactly when the ranks are equal and at least two and the batch dimensions agree; the inner dimensions are never compared. |
| Utils.MatmulCheckIgnoresInnerDims | src/linalg/utils.rs:24-46 | A 2x3 and a 4x5 matrix pass the check even though 3 differs from 4. |
| Utils.GetShapeAfterBroadcast | src/linalg/array.rs:199-201 | Succeeds exactly when the shapes are compatible under trailing alignment; the result has the larger rank. |
| Utils.BroadcastCovers | src/linalg/array.rs:199-201 | Each operand can be replicated up to the broadcast shape. |
| Utils.BroadcastSymmetric | src/linalg/array.rs:199-201 | The broadcast shape does not depend on the order of the operands. |
| Utils.BroadcastPositive | src/linalg/array.rs:199-201 | Broadcasting two shapes without a zero dimension gives a shape without a zero dimension. |
| Utils.BroadcastOnto | src/linalg/array.rs:199-201 | A shape whose every dimension equals the target's or is 1, at the same rank, broadcasts to exactly the target shape. |
| Utils.GetShapeAfterBroadcastMatmul | src/linalg/array.rs:924-925 | Succeeds exactly when both ranks are at least two and the batch prefixes broadcast; the result is that broadcast followed by the left operand's rows and the right operand's columns. |
| Utils.CheckShapesBroadcast | src/linalg/broadcast.rs:37-40 | Passes exactly when the shapes are compatible. |
| Utils.Transposed2DAt | src/linalg/utils.rs:49-75 | Row `i`, column `j` of the input is row `j`, column `i` of the transpose. |
| Utils.Transposed2DTwice | src/linalg/utils.rs:49-75 | Transposing a matrix twice gives it back. |
| Utils.Transpose2DMatrixSlices | src/linalg/utils.rs:49-75 | Fails, changing nothing, unless the output slice and the input both hold `rows * cols` elements; otherwise the slice holds the transpose and the rest of the buffer is untouched. |
| Utils.TransposeRow | src/linalg/utils.rs:70-74 | One pass of the outer loop writes exactly the output positions of row `i`'s column and leaves every other position alone. |
| Broadcast.CheckTrailingDims | src/linalg/broadcast.rs:21-45 | The iterator can be built exactly when `t` does not exceed either rank and the leading parts broadcast; otherwise the error is a shape error. |
| Broadcast.GetPaddedBroadcastShapes | src/linalg/broadcast.rs:87-110 | Both leading parts are padded on the left with ones to the leading rank of the longer operand. |
| Broadcast.GetSliceLen | src/linalg/broadcast.rs:112-118 | A slice holds the product of the `t` trailing dimensions. |
| Broadcast.ResultShape | src/linalg/broadcast.rs:42-46 | The shape the iterator runs over has one entry per leading dimension of the longer operand. |
| Broadcast.ResultShapeAt | src/linalg/broadcast.rs:42-46 | Each result dimension is the larger of the two padded leading dimensions. |
| Broadcast.SliceFits | src/linalg/broadcast.rs:74-84 | For every result coordinate, an operand's slice lies inside its buffer. |
| Broadcast.SlicePairAt | src/linalg/broadcast.rs:123-138 | The pair yielded at step `k` is the two operands' slices at the slice offsets of the coordinate with row-major offset `k`. |
| Broadcast.SlicePairWhole | src/linalg/broadcast.rs:123-138 | With no leading dimension there is one pair, the two whole buffers. |
| Broadcast.NoLeadingDims | src/linalg/broadcast.rs:42-46 | The result shape is empty exactly when every dimension of both operands is kept. |
| Broadcast.SourceIndexSplit | src/linalg/broadcast.rs:74-84 | The element broadcasting pairs with a result coordinate is the matching element of the slice the operand contributes at the coordinate's leading part. |
| Broadcast.PairCountKeepingOne | src/linalg/broadcast.rs:181-196 | Shapes [2, 1, 3] and [1, 3, 3] keeping one dimension run over [2, 3], six pairs. |
| Broadcast.NextCoordinate | src/linalg/broadcast.rs:61-72 | The odometer step gives the coordinate of the next row-major offset, or reports the end after the last coordinate. |
| Broadcast.BroadcastIterator.constructor | src/linalg/broadcast.rs:21-59 | A fresh iterator holds the two operands, `t`, the padded shapes, the slice lengths and the result shape, and starts at step 0. |
| Broadcast.BroadcastIterator.IncrementBroadcastShapeIterator | src/linalg/broadcast.rs:61-72 | Advances the current coordinate by one row-major step, or marks the iterator done after the last one. |
| Broadcast.BroadcastIterator.ComputeSliceIndex | src/linalg/broadcast.rs:74-84 | The loop computes the slice offset of the current coordinate, reading index 0 along dimensions of size 1. |
| Broadcast.BroadcastIterator.Next | src/linalg/broadcast.rs:123-138 | Yields pair number `count` of the specified sequence `Pairs` and advances, or yields nothing once every pair has been yielded. |
| Broadcast.Pairs | src/linalg/broadcast.rs:123-138 | The whole sequence the iterator yields has one pair per coordinate of the result shape, each slice of its operand's slice length. |
| Elementwise.TrailingEqualSpec | src/linalg/array.rs:216-223 | The counted trailing dimensions are equal in both shapes, and the next pair, if there is one, differs. |
| Elementwise.CountTrailingDims | src/linalg/array.rs:216-223 | The loop from the last dimension, stopping at the first difference, computes that count. |
| Elementwise.TrailingSplit | src/linalg/array.rs:216-226 | With that count the iterator can always be built, and the broadcast shape is the broadcast of the leading parts followed by the shared dimensions. |
| Elementwise.ElementwiseSpec | src/linalg/array.rs:199-233 | Fails exactly when the shapes do not broadcast; otherwise the result has the broadcast shape and its blocks are the iterator's slice pairs combined pairwise. |
| Elementwise.ElementwiseAt | src/linalg/array.rs:199-233 | The result at every coordinate is `f` applied to the two elements that broadcasting maps that coordinate to. |
| Elementwise.ElementwiseSameShape | src/linalg/array.rs:199-233 | Arrays of one shape combine position by position. |
| Elementwise.ElementwiseWrongShape | src/linalg/array.rs:199-201 | Shapes [2, 2, 2] and [2, 4] do not broadcast, and combining them fails. |
| Elementwise.OuterPair | src/linalg/broadcast.rs:213-230 | A [1, n] row against an [m, 1] column gives, at coordinate `c` of the [m, n] result, element `c[1]` of the row paired with element `c[0]` of the column. |
| Elementwise.PairsKeepingNone | src/linalg/broadcast.rs:213-230 | A [1, 3] row and a [3, 1] column yield the nine single-element pairs of the test, the row running fastest. |
| Elementwise.RowsPair | src/linalg/broadcast.rs:181-196 | An [m, 1, n] array against a [1, p, n] array, keeping the last dimension, pairs row `c[0]` of the first with row `c[1]` of the second at coordinate `c`. |
| Elementwise.PairsKeepingOne | src/linalg/broadcast.rs:181-196 | Shapes [2, 1, 3] and [1, 3, 3] yield six pairs of rows, each row of the first with each row of the second in turn. |
| Elementwise.WriteZip | src/linalg/array.rs:229-231 | The innermost loop writes `f` of the paired elements into the block and changes nothing outside it. |
| Elementwise.FillBlocks | src/linalg/array.rs:226-232 | The block loop fills the buffer with the specified combined pairs, block `i` from pair `i`. |
| Elementwise.ComputeElementwiseWithOtherArrayOnMemBuffer | src/linalg/array.rs:209-233 | The buffer ends up holding the combined blocks of every pair. |
| Elementwise.ComputeElementwiseWithOtherArray | src/linalg/array.rs:199-207 | The method's result is exactly `ElementwiseSpec`. |
| ArrayOps.ComputeElementwiseWithScalar | src/linalg/array.rs:237-245 | Keeps the shape and puts `f(x, s)` at every position holding `x`. |
| ArrayOps.Map | src/linalg/array.rs:270-277 | Keeps the shape and puts `g(x)` at every position holding `x`. |
| ArrayOps.Neg | src/linalg/array.rs:349-351 | Keeps the shape and negates every element. |
| ArrayOps.AddScalar | src/linalg/array.rs:439-441 | Adds the scalar to every element. |
| ArrayOps.SubScalar | src/linalg/array.rs:500-502 | Subtracts the scalar from every element. |
| ArrayOps.MulScalar | src/linalg/array.rs:561-563 | Multiplies every element by the scalar. |
| ArrayOps.DivScalar | src/linalg/array.rs:621-623 | Divides every element by the scalar. |
| ArrayOps.Add | src/linalg/array.rs:412-414 | Broadcast elementwise sum; fails exactly when the shapes do not broadcast. |
| ArrayOps.Sub | src/linalg/array.rs:473-475 | Broadcast elementwise difference, with the same failure condition. |
| ArrayOps.Mul | src/linalg/array.rs:534-536 | Broadcast elementwise product, with the same failure condition. |
| ArrayOps.Div | src/linalg/array.rs:594-596 | Broadcast elementwise quotient, with the same failure condition. |
| ArrayOps.NegTwice | src/linalg/array.rs:349-351 | Negating twice gives the array back. |
| ArrayOps.NegIsScaling | src/linalg/array.rs:349-351 | Negation equals multiplication by the scalar -1. |
| ArrayOps.AddSubScalar | src/linalg/array.rs:500-502 | Subtracting a scalar undoes adding it. |
| ArrayOps.MulDivScalar | src/linalg/array.rs:621-623 | Dividing by a non-zero scalar undoes multiplying by it. |
| ArrayOps.AddExample | src/linalg/array.rs:385-410 | The documented `add` example on shape [2, 1, 4] gives the documented sums. |
| ArrayOps.SubExample | src/linalg/array.rs:453-471 | The documented `sub` example gives -1 everywhere. |
| ArrayOps.MulExample | src/linalg/array.rs:513-532 | The documented `mul` example gives the documented products. |
| ArrayOps.DivExample | src/linalg/array.rs:571-592 | The documented `div` example gives 2 everywhere. |
| ArrayOps.GetTransposedShape | src/linalg/array.rs:1009-1022 | Fails exactly when the rank is below two; otherwise swaps the last two dimensions and keeps the rest. |
| ArrayOps.TransposedShapeTwice | src/linalg/array.rs:1009-1022 | Swapping the last two dimensions twice gives the shape back. |
| ArrayOps.BatchTransposedTwice | src/linalg/array.rs:1025-1043 | Transposing every block twice, with the dimensions swapped back, gives the data back. |
| ArrayOps.TransposeBlock | src/linalg/array.rs:1033-1041 | One pass of the block loop transposes block `i` into block `i` of the output, keeping the blocks already done. |
| ArrayOps.TransposeOnMemBuffer | src/linalg/array.rs:1025-1043 | The output buffer holds every trailing matrix of the input, transposed, in batch order. |
| ArrayOps.Transpose | src/linalg/array.rs:998-1006 | Fails exactly when the rank is below two; otherwise the result is the transpose. |
| ArrayOps.TransposeBlockAt | src/linalg/array.rs:998-1006 | Every trailing matrix of the result is the transpose of the matching matrix of the input. |
| ArrayOps.TransposeTwice | src/linalg/array.rs:998-1006 | Transposing twice gives the array back. |
| MutableArrays.MutArray.MapAssign | src/linalg/array.rs:302-306 | The in-place loop leaves the object holding `map` of its old array. |
| MutableArrays.MutArray.NegAssign | src/linalg/array.rs:374-376 | The object holds the negation of its old array. |
| MutableArrays.MutArray.AssignComputeElementwiseWithScalar | src/linalg/array.rs:321-325 | The object holds its old array with `f(x, s)` at every position, in the same shape. |
| MutableArrays.MutArray.AddAssignScalar | src/linalg/array.rs:681-683 | The object holds the old array plus the scalar. |
| MutableArrays.MutArray.SubAssignScalar | src/linalg/array.rs:741-743 | The object holds the old array minus the scalar. |
| MutableArrays.MutArray.MulAssignScalar | src/linalg/array.rs:802-804 | The object holds the old array times the scalar. |
| MutableArrays.MutArray.DivAssignScalar | src/linalg/array.rs:862-864 | The object holds the old array divided by the scalar. |
| MutableArrays.MutArray.AssignComputeElementwiseWithOtherArray | src/linalg/array.rs:310-318 | On success the object holds the broadcast combination, shape included; on failure the object is unchanged and the error is the one `ElementwiseSpec` gives. |
| MutableArrays.MutArray.AddAssign | src/linalg/array.rs:654-656 | The object holds the broadcast sum, or is unchanged when the shapes do not broadcast. |
| MutableArrays.MutArray.SubAssign | src/linalg/array.rs:714-716 | As `AddAssign`, for the difference. |
| MutableArrays.MutArray.MulAssign | src/linalg/array.rs:775-777 | As `AddAssign`, for the product. |
| MutableArrays.MutArray.DivAssign | src/linalg/array.rs:835-837 | As `AddAssign`, for the quotient. |
| MutableArrays.MutArray.TransposeAssign | src/linalg/array.rs:1084-1089 | A rank of two or more gives the transpose in a fresh buffer with the last two dimensions swapped; a lower rank fails and leaves the object unchanged. |
| MutableArrays.MutArray.SetAt | src/linalg/array.rs:1151-1156 | Writing through an index fails, changing nothing, unless the index is in bounds; otherwise only the element at its row-major offset changes. |
| MutableArrays.ReadAfterWrite | src/linalg/array.rs:1142-1156 | Reading after a write gives the written value at the same index and the old element at any other. |
| MutableArrays.NegAssignTwice | src/linalg/array.rs:374-376 | Negating in place twice restores the object's array. |
| MutableArrays.TransposeAssignTwice | src/linalg/array.rs:1084-1089 | Transposing in place twice restores an array of rank two or more. |
| Matmul.CheckMatrixProductShapes | src/linalg/matmul.rs:93-129 | Passes exactly when the inner dimensions agree, the output holds `rows1 * cols2` elements and both inputs match their dimensions, checked in that order. |
| Matmul.MatProductAt | src/linalg/matmul.rs:74-91 | Row `i`, column `j` of the product is the full dot product of row `i` of the left and column `j` of the right matrix. |
| Matmul.DotProduct | src/linalg/matmul.rs:84-86 | The innermost loop computes that dot product, adding left to right. |
| Matmul.MatmulRow | src/linalg/matmul.rs:83-88 | The middle loop writes row `i` of the product and nothing else. |
| Matmul.GeneralMatmul2DMatrixSlices | src/linalg/matmul.rs:74-91 | The kernel writes the whole product into the output slice and changes nothing outside it. |
| Matmul.Matmul2DMatrixSlices | src/linalg/matmul.rs:11-28 | Fails, changing nothing, when the shape check fails; otherwise the output slice holds the product. |
| Matmul.MatProductTransposed | src/linalg/matmul.rs:74-91 | The transpose of a product is the product of the transposes in the other order. |
| Matmul.MatProductExample | src/linalg/matmul.rs:135-145 | The 2x3 by 3x2 product of 1..6 with 1..6 in the source's unit test is [22, 28, 49, 64]. |
| Matmul.MatProductSecondBatch | tests/array.rs:264-278 | [1, 2, 3; 3, 2, 1] times the 3x2 matrix of 1..6 is [22, 28, 14, 20]. |
| ArrayMatmul.MatmulLayout | src/linalg/array.rs:924-956 | A successful shape check gives an iterator over two kept dimensions whose slices are the operands' matrices, and one output block per pair. |
| ArrayMatmul.MatmulSpec | src/linalg/array.rs:924-956 | Fails when the ranks or batch shapes are wrong, or when the inner dimensions differ; otherwise has the batched shape, and block `i` is the product of the `i`-th pair of matrices. |
| ArrayMatmul.WriteProduct | src/linalg/array.rs:941-950 | Writes the product of pair `i` as block `i`, or fails with the buffer unchanged when its inner dimensions differ. |
| ArrayMatmul.FillProducts | src/linalg/array.rs:941-951 | The loop fills every block with the product of its pair, failing at the first non-conformant pair. |
| ArrayMatmul.Matmul | src/linalg/array.rs:924-956 | The method's result is exactly `MatmulSpec`. |
| ArrayMatmul.MatmulBlock | src/linalg/array.rs:941-951 | Block `q` of a successful product is the 2-D product of the `q`-th pair. |
| ArrayMatmul.MatmulData | src/linalg/array.rs:941-951 | A successful product is the concatenation of the products of all pairs. |
| ArrayMatmul.MatrixRightShared | src/linalg/array.rs:941-951 | A rank-2 right operand is the right matrix of every pair. |
| ArrayMatmul.MatmulWrongBroadcast | src/linalg/array.rs:924-925 | Shapes [2, 2, 3] and [3, 3, 2] fail: batch dimensions 2 and 3 do not broadcast. |
| ArrayMatmul.MatmulBroadcastSmallerShape | src/linalg/array.rs:924-956 | Shapes [2, 2, 3] and [3, 2] share the right matrix and give shape [2, 2, 2]. |
| ArrayMatmul.BatchAgainstMatrix | src/linalg/array.rs:941-951 | For a [2, m, n] array against a matrix, pair `k` is batch `k` of the array with the whole matrix. |
| ArrayMatmul.TwoBatchesAgainstMatrix | src/linalg/array.rs:924-956 | A [2, m, n] array times an [n, p] matrix has shape [2, m, p] and holds each batch's 2-D product with the shared matrix, in order. |
| ArrayMatmul.MatmulBroadcastSmallerShapeValues | tests/array.rs:264-278 | The [2, 2, 3] array of `test_matmul_broadcast_smaller_shape` times the [3, 2] matrix of 1..6 is [22, 28, 49, 64, 22, 28, 14, 20] with shape [2, 2, 2]. |
| ArrayMatmul.MatrixProduct | src/linalg/array.rs:924-956 | Two matrices with agreeing inner dimensions multiply to their 2-D product. |
| ArrayMatmul.MatrixTranspose | src/linalg/array.rs:998-1006 | A matrix transposes to its 2-D transpose with the dimensions swapped. |
| ArrayMatmul.MatmulTransposed | src/linalg/array.rs:924-1006 | For matrices, transpose(a . b) is transpose(b) . transpose(a). |
| Reduction.CheckReduceAxis | src/linalg/reduce.rs:5-15 | Fails exactly when an axis is given that is not below the rank. |
| Reduction.GetShapeAfterReduce | src/linalg/reduce.rs:17-36 | The reduced axis becomes 1, or disappears unless `keep_dims`; with no axis every dimension becomes 1, or the shape collapses to [1]. |
| Reduction.ReduceShape | src/linalg/reduce.rs:17-36 | The reduced shape has no zero dimension, and its size times the gathered count is the input's size. |
| Reduction.ReduceSpec | src/linalg/reduce.rs:92-131 | Fails exactly when the axis is out of range; an axis reduction folds each line onto its first element; a reduction of every axis folds the whole buffer onto zero. |
| Reduction.FoldAll | src/linalg/reduce.rs:124-125 | The loop computes the left fold of the buffer. |
| Reduction.FoldAxis | src/linalg/reduce.rs:109-117 | The inner loop folds one line and counts the elements it visits. |
| Reduction.FillAxis | src/linalg/reduce.rs:101-123 | The axis loop writes the folded line of every output element, tracking block starts through `processed`. |
| Reduction.Reduce | src/linalg/reduce.rs:92-131 | The method's result is exactly `ReduceSpec`. |
| Reduction.ReduceSum | src/linalg/reduce.rs:186-188 | `reduce` with addition. |
| Reduction.ReduceProd | src/linalg/reduce.rs:242-244 | `reduce` with multiplication. |
| Reduction.ReduceMax | src/linalg/reduce.rs:299-301 | `reduce` with the larger of two. |
| Reduction.ReduceMin | src/linalg/reduce.rs:356-358 | `reduce` with the smaller of two. |
| Reduction.MeanSpec | src/linalg/reduce.rs:413-422 | Fails exactly when the axis is out of range, and otherwise has the reduced shape. |
| Reduction.MeanTimesCount | src/linalg/reduce.rs:413-422 | Every mean times its gathered count is the corresponding sum. |
| Reduction.ReduceMean | src/linalg/reduce.rs:413-422 | The method's result is exactly `MeanSpec`. |
| Reduction.ReduceAxisAt | src/linalg/reduce.rs:92-131 | Reducing axis `k`, the element for block `o` and row `row` is that line folded onto its first element. |
| Reduction.ReduceUnitAxis | src/linalg/reduce.rs:92-131 | Reducing an axis of length 1 and keeping it gives the array back, whatever the reducer. |
| Reduction.ReduceKeepDimsSameData | src/linalg/reduce.rs:92-131 | `keep_dims` changes only the shape, never the data. |
| Reduction.ReduceProdAllIsZero | src/linalg/reduce.rs:124-125 | Because the fold starts from zero, the product over every axis is zero for every array. |
| Reduction.ReduceMaxAxisAt | src/linalg/reduce.rs:299-301 | Reducing an axis with `max` gives the largest element of each line. |
| Reduction.ReduceMaxAll | src/linalg/reduce.rs:124-125 | The maximum over every axis is the largest of zero and the elements. |
| Reduction.ReduceMaxOfNegative | src/linalg/reduce.rs:124-125 | The maximum over every axis of the array [-1] is 0. |
| Reduction.ReduceSumExample | src/linalg/reduce.rs:60-90 | Summing the middle axis of 0..11 as 2x3x2 gives [6, 9, 24, 27] with shape [2, 1, 2] or [2, 2]. |
| Reduction.ReduceSumAllExample | src/linalg/reduce.rs:66-69 | Summing every element of 0..11 as 2x3x2 gives [66] with shape [1]. |
| Reduction.FoldCounting | src/linalg/reduce.rs:124-125 | Folding `+` over the first `k` elements of 0, 1, 2, ... gives k(k-1)/2. |
| ArrayViews.S | src/linalg/array.rs:124-144 | Fails with a shape error when the slice list's length differs from the rank, and with an index error when a single index is out of range; otherwise views the array's own buffer, shape and slices. |
| ArrayViews.NewShape | src/linalg/array_view.rs:53-64 | The view's shape is never empty, and it is [1] when every slice is an index. |
| ArrayViews.GetNewShape | src/linalg/array_view.rs:53-64 | The loop computes that shape, or fails when a range underflows. |
| ArrayViews.IsInIndex | src/linalg/array_view.rs:66-91 | True exactly when every coordinate lies in its slice. |
| ArrayViews.AdvanceIndex | src/linalg/array_view.rs:92-98 | The odometer step moves from the coordinate of offset `p` to that of `p + 1`. |
| ArrayViews.ToArraySpec | src/linalg/array_view.rs:46-101 | Fails when a range underflows, on a rank-0 array, or when the kept elements do not fill the new shape; otherwise the kept elements in that shape. |
| ArrayViews.ToArray | src/linalg/array_view.rs:46-101 | The method's result is exactly `ToArraySpec`. |
| ArrayViews.FilterInOrder | src/linalg/array_view.rs:46-101 | An element is kept exactly when it is selected, and the kept elements keep their buffer order. |
| ArrayViews.ToArrayKeeps | src/linalg/array_view.rs:46-101 | A value occurs in the view's array exactly when some selected buffer position holds it. |
| ArrayViews.ToArrayRow | src/linalg/array_view.rs:38-43 | Viewing a matrix through `[i, ..]` gives row `i` as a vector. |
| ArrayViews.ToArrayFirstRowExample | src/linalg/array_view.rs:38-43 | The first row of the 2x4 matrix 1..8 is [1, 2, 3, 4]. |
| ArrayViews.ToArrayTooFew | src/linalg/array_view.rs:100 | A view whose new shape holds more elements than the buffer fails to build its array. |
| ArrayViews.ToArrayRangeToPastEnd | src/linalg/array_view.rs:100 | Slicing a 3-vector with `..5` fails. |
| Graph.Inputs | src/graph/arithmetic.rs:51-53 | A node has at most two inputs, and exactly the variables, placeholders and wrappers list none. |
| Graph.Eval | src/graph/mod.rs:43-57 | Evaluation fails only with a shape error or for want of a placeholder value whose id is absent from the feed. |
| Graph.Value | src/graph/mod.rs:43-57 | A hit returns the cached array and leaves the cache alone; a miss computes the node and caches it. Either way the result is `Eval`, and the cache stays sound. |
| Graph.Compute | src/graph/arithmetic.rs:37-60 | The operator applied to its inputs' cached or computed values is `Eval` of the node. |
| Graph.Evaluate | src/graph/mod.rs:65-69 | `eval` with a fresh cache equals `Eval` on the feed, or on an empty feed when none is given. |
| Graph.EvalPrefix | src/graph/mod.rs:43-57 | Appending nodes changes no existing node's value. |
| Graph.MissingFeedNamesPlaceholder | src/graph/mod.rs:214-224 | A missing-feed failure names an id that a placeholder up to that node holds and the feed lacks. |
| Graph.FedGraphFindsEveryValue | src/graph/mod.rs:214-224 | When every placeholder up to node `n` is fed, evaluating `n` never fails for want of a value. |
| Gradients.AccumGradSpec | src/graph/mod.rs:178-187 | The node's rule gives a contribution exactly when `c` is one of its inputs (a wrapper answers as the node it wraps); it fails only on shape errors or missing feeds. |
| Gradients.BinaryGrad | src/graph/arithmetic.rs:89-189 | The rules of the two-input operators answer exactly for their inputs. |
| Gradients.UnaryGrad | src/graph/arithmetic.rs:195-363 | The rules of the one-input operators (the scalar operators and `NegOp` here, `ReduceSumOp` and `ReduceMeanOp` at src/graph/reduce.rs:65-119) answer exactly for their input. |
| Gradients.Accumulate | src/graph/mod.rs:105-111 | A contribution is added into the node's entry, or becomes it; no other entry changes; nothing changes when there is no contribution. |
| Gradients.Expand | src/graph/mod.rs:112-117 | The popped node's inputs are pushed unless it is the target; the stack measure strictly drops. |
| Gradients.Propagate | src/graph/mod.rs:98-119 | The walk keeps every existing entry. |
| Gradients.GradSpec | src/graph/mod.rs:72-121 | Fails when the root cannot be evaluated; ones of the root's shape when root and target are the same node. |
| Gradients.AccumGrad | src/graph/mod.rs:178-187 | The local rule, run with the cache, is `AccumGradSpec`, and the cache stays sound. |
| Gradients.PopEdge | src/graph/mod.rs:98-118 | One pop either fails as the walk does, or leaves a smaller stack from which the walk has the same outcome. |
| Gradients.Drain | src/graph/mod.rs:98-119 | The loop's outcome is `Propagate` of the initial stack and map. |
| Gradients.Grad | src/graph/mod.rs:72-121 | `grad` equals `GradSpec` on the feed, or on an empty feed when none is given. |
| Gradients.GradFindsReachable | src/graph/mod.rs:72-121 | `grad` never fails for want of a parent's gradient, and when it succeeds it returns a gradient exactly when the target is the root or is reached from it. |
| Gradients.PropagateFinds | src/graph/mod.rs:98-119 | The walk gives the target an entry exactly when the origin reaches it. |
| GradientExamples.NegRule | src/graph/arithmetic.rs:346-363 | `NegOp` passes its input the gradient scaled by -1. |
| GradientExamples.AddRule | src/graph/arithmetic.rs:89-113 | `AddOp` passes a seed of ones to each input unchanged. |
| GradientExamples.SubRule | src/graph/arithmetic.rs:139-163 | `SubOp` passes minus the seed to both inputs, the first one included. |
| GradientExamples.MulRule | src/graph/arithmetic.rs:119-133 | `MulOp` passes each input the seed times the other input's value. |
| GradientExamples.DivNumeratorRule | src/graph/arithmetic.rs:169-189 | `DivOp` passes the numerator the seed times `1 / y`. |
| GradientExamples.DivDenominatorRule | src/graph/arithmetic.rs:169-189 | `DivOp` passes the denominator the seed times `-1 / (y * y)`, with no factor `x`. |
| GradientExamples.MatmulBinary | src/graph/arithmetic.rs:294-313 | `MatMulOp` answers its first input with the left rule and its second with the right rule. |
| GradientExamples.LeftRule | src/graph/arithmetic.rs:294-313 | The left input receives the seed times the transpose of the right input's value. |
| GradientExamples.RightRule | src/graph/arithmetic.rs:294-313 | The right input receives the transpose of the left input's value times the seed. |
| GradientExamples.OperatorTest | tests/tensor.rs:107-117 | Given the forward value and the two rule results, `grad` of the operator test returns those results for `a` and `b`, and nothing for `c`. |
| GradientExamples.TestGraphGrad | tests/tensor.rs:107-117 | `grad` on an operator test gives `b` and then `a` the operator's rule applied to the seed, and `c` nothing. |
| GradientExamples.AddGradients | tests/tensor.rs:134-150 | `a + b` is 3; the gradients are 1 for `a` and for `b`, and none for `c`. |
| GradientExamples.SubGradients | tests/tensor.rs:134-150 | `a - b` is -1; the gradients are -1 for `a` and for `b`, and none for `c`. |
| GradientExamples.MulGradients | tests/tensor.rs:134-150 | `a * b` is 2; the gradients are 2 for `a` and 1 for `b`. |
| GradientExamples.DivGradients | tests/tensor.rs:134-150 | `a / b` is 0.5; the gradients are 0.5 for `a` and -0.25 for `b`. |
| GradientExamples.MatmulGradients | tests/tensor.rs:152-163 | `a . b` holds `2 * inner`; the gradients are `2 * cols` for `a` and `rows` for `b`. |
| GradientExamples.MatmulTestValues | tests/tensor.rs:152-163 | For one batch slice of the test's arrays, 3x2 and 2x4, the product holds 4 and the gradients 8 and 3. |
| GradientExamples.NegForward | tests/tensor.rs:168-177 | `-a` evaluates to -1 everywhere. |
| GradientExamples.NegGrad | tests/tensor.rs:168-177 | The gradient of `-a` is -1 for `a` and there is none for `b`. |
| GradientExamples.UnaryOperatorTest | tests/tensor.rs:119-128 | Given the forward value and the operator's rule result, `grad` of a one-input test returns that result for `a` and nothing for `b`. |
| GradientExamples.ScalarRule | src/graph/arithmetic.rs:192-363 | With a seed of ones, `AddScalarOp` passes 1, `SubScalarOp` -1, `MulScalarOp` its scalar and `DivScalarOp` one over its scalar; `NegOp` passes -1. |
| GradientExamples.ScalarForward | tests/tensor.rs:96-104 | `a + 2`, `a - 2`, `a * 2` and `a / 2` with `a` all ones evaluate to 3, -1, 2 and 0.5. |
| GradientExamples.ScalarGradients | tests/tensor.rs:119-128 | The gradients of `a + 2`, `a - 2`, `a * 2` and `a / 2` for `a` are 1, -1, 2 and 0.5. |
| GradientExamples.ScalarGradientUnrelated | tests/tensor.rs:119-128 | `a op 2` has no gradient for `b`, for each of the four operators. |
| GradientExamples.ReduceSumRule | src/graph/reduce.rs:65-82 | `ReduceSumOp` with `keep_dims` spreads a constant gradient of the reduced shape unchanged over the input's shape, over an axis or the whole array. |
| GradientExamples.ReduceMeanRule | src/graph/reduce.rs:100-119 | `ReduceMeanOp` over axis `k` spreads a constant gradient over the input's shape, multiplied by `1 / k`: the axis index, not its length. |
| GradientExamples.ReduceMeanAllRule | src/graph/reduce.rs:100-119 | `ReduceMeanOp` over the whole array spreads a constant gradient over the input's shape, divided by the element count. |
| GradientExamples.SumGradients | src/graph/reduce.rs:65-82 | `grad` of a sum with `keep_dims` is ones of the input's shape for `a`, and nothing for `b`. |
| GradientExamples.MeanGradients | src/graph/reduce.rs:100-119 | `grad` of a mean over axis `k` with `keep_dims` is `1 / k` everywhere for `a`, and nothing for `b`. |
| GradientExamples.MeanAxisIndexExample | src/graph/reduce.rs:108-114 | The mean of a [2, 3, 5] array over axis 2 gives the gradient 1/2 everywhere, not 1/5. |
| GradientExamples.DoubledForward | src/graph/arithmetic.rs:338-344 | `r = p + p` with `p = -x` evaluates to `-2 * x`. |
| GradientExamples.DoubledPathGradient | src/graph/mod.rs:98-119 | The gradient of that `r` for `x` comes out as -3 everywhere, not -2: the shared node's running total is passed on at each of its two visits. |

## Left out

- Floating point: elements are exact reals. Rounding, infinities and NaN are not modelled. `f32` test tolerances become exact equalities.
- ArrayOps.Quotient: division by zero gives 0 here, where IEEE arithmetic gives an infinity or NaN. ArrayOps.Div, ArrayOps.DivScalar, MutableArrays.MutArray.DivAssign, MutableArrays.MutArray.DivAssignScalar, Gradients.DivNumeratorGrad, Gradients.DivDenominatorGrad and Gradients.MeanFactor inherit this. In particular, `ReduceMeanOp` with axis 0 divides by 0, and its gradient is 0 here.
- Panics are modelled as `Err`/`Fail` results. Unwinding and the panic message texts are not modelled. `usize` underflows that panic in debug builds are modelled as errors too.
- Integer widths: dimensions and indices are unbounded naturals. `usize` overflow of a shape's product is not modelled.
- The BLAS path of the matrix kernel (`src/linalg/matmul.rs:30-68`, for `f32`/`f64`) is not modelled. Only the general kernel is. Both compute the same product up to rounding.
- The definitions of `get_shape_after_broadcast`, `get_shape_after_broadcast_matmul` and `check_shapes_broadcast` are not part of this model. Their behaviour is modelled from the call sites and from the broadcasting rule they implement.
- Node identity: the library compares nodes by address (`ref_as_usize`, `PartialEq`) and shares them through `Rc`. Here a node is its index in an acyclic arena, and sharing is the same index appearing twice.
- The feed map is `map<string, Array>`, optional at `eval`/`grad`. Borrowed references and the `HashMap` type are not modelled.
- Gradients.GradSpec: its contract states only the error and the root-equals-target cases. The general case is stated by Gradients.GradFindsReachable and Gradients.Grad and pinned down by the examples.
- Gradients.Propagate: its contract states only that entries are kept. What the walk computes is stated by Gradients.PropagateFinds and the pop-by-pop example lemmas.
- Graph.Eval: its contract states only how failures arise. The values are stated by the example lemmas and by Graph.EvalPrefix.
- A placeholder whose fed array has a different shape from the one declared elsewhere is accepted, as in the code. The code performs no shape check.
- `ReduceSumOp` with `keep_dims = false` on a middle axis: the gradient's broadcast against the input's shape fails. This is modelled as the shape error the broadcast gives, not as a panic.
- `Tensor` (`src/tensor`), `src/graph/math.rs`, `src/linalg/ops.rs` (free-function wrappers such as `add` and `div`, re-exported from `linalg` by src/linalg/mod.rs:15-17; among them `div` calls `add`, so `linalg::div(a, b)` returns `a + b`, while the `/` operator on arrays calls `Array::div`, modelled by `ArrayOps.Div`), `Display`/`Debug` formatting, the `s!` macro and the `From` conversions into `Slice` are outside the modelled core.
- `get_name` and `as_trait` are not modelled: operator names and trait-object plumbing carry no behaviour.
- `test_complex_example` (tests/tensor.rs:188-…) is not restated as a lemma. The rules of its operators are proved separately: `MatMulOp` by `GradientExamples.MatmulBinary`, `AddScalarOp` and `DivScalarOp` by `GradientExamples.ScalarRule`, `MulOp` by `GradientExamples.MulRule`. Their composition on its particular arrays, and its placeholder feed, are not.
