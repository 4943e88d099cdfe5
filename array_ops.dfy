/**
 * The value-returning arithmetic of the array engine: scalar operations,
 * `map` and negation, the broadcasting binary operations, and the batched
 * transpose of the last two dimensions.
 */
module ArrayOps {
  import opened Outcomes
  import opened Arith
  import opened Layout
  import opened Utils
  import opened ArrayCore
  import opened Elementwise

  // The element operations the engine passes to its elementwise kernels.

  function Plus(x: real, y: real): real { x + y }

  function Minus(x: real, y: real): real { x - y }

  function Times(x: real, y: real): real { x * y }

  /** Division; a zero divisor gives 0, since infinities and NaN are not modelled. */
  function Quotient(x: real, y: real): real { if y == 0.0 then 0.0 else x / y }

  function Negate(x: real): real { -x }

  /** `a` with every element `x` replaced by `f(x, s)`. */
  function ScalarResult(a: Array, s: real, f: (real, real) -> real): (r: Array)
    ensures r.shape == a.shape && |r.data| == |a.data|
  {
    RawArray(a.shape, seq(|a.data|, k requires 0 <= k < |a.data| => f(a.data[k], s)))
  }

  /** `a` with every element `x` replaced by `g(x)`. */
  function Mapped(a: Array, g: real -> real): (r: Array)
    ensures r.shape == a.shape && |r.data| == |a.data|
  {
    RawArray(a.shape, seq(|a.data|, k requires 0 <= k < |a.data| => g(a.data[k])))
  }

  /** Applies `f(x, s)` to a copy of the buffer, element by element. */
  method ComputeElementwiseWithScalar(a: Array, s: real, f: (real, real) -> real) returns (r: Array)
    ensures r.shape == a.shape
    ensures forall k :: 0 <= k < |a.data| ==> r.data[k] == f(a.data[k], s)
    ensures r == ScalarResult(a, s, f)
  {
    var data := a.data;
    for i := 0 to |data|
      invariant |data| == |a.data|
      invariant forall k :: 0 <= k < i ==> data[k] == f(a.data[k], s)
      invariant forall k :: i <= k < |data| ==> data[k] == a.data[k]
    {
      data := data[i := f(data[i], s)];
    }
    r := RawArray(a.shape, data);
  }

  /** Applies `g` to a copy of the buffer, element by element. */
  method Map(a: Array, g: real -> real) returns (r: Array)
    ensures r.shape == a.shape
    ensures forall k :: 0 <= k < |a.data| ==> r.data[k] == g(a.data[k])
    ensures r == Mapped(a, g)
  {
    var data := a.data;
    for i := 0 to |data|
      invariant |data| == |a.data|
      invariant forall k :: 0 <= k < i ==> data[k] == g(a.data[k])
      invariant forall k :: i <= k < |data| ==> data[k] == a.data[k]
    {
      data := data[i := g(data[i])];
    }
    r := RawArray(a.shape, data);
  }

  method Neg(a: Array) returns (r: Array)
    ensures r.shape == a.shape && forall k :: 0 <= k < |a.data| ==> r.data[k] == -a.data[k]
    ensures r == Mapped(a, Negate)
  {
    r := Map(a, Negate);
  }

  method AddScalar(a: Array, s: real) returns (r: Array)
    ensures r == ScalarResult(a, s, Plus)
  {
    r := ComputeElementwiseWithScalar(a, s, Plus);
  }

  method SubScalar(a: Array, s: real) returns (r: Array)
    ensures r == ScalarResult(a, s, Minus)
  {
    r := ComputeElementwiseWithScalar(a, s, Minus);
  }

  method MulScalar(a: Array, s: real) returns (r: Array)
    ensures r == ScalarResult(a, s, Times)
  {
    r := ComputeElementwiseWithScalar(a, s, Times);
  }

  method DivScalar(a: Array, s: real) returns (r: Array)
    ensures r == ScalarResult(a, s, Quotient)
  {
    r := ComputeElementwiseWithScalar(a, s, Quotient);
  }

  method Add(a1: Array, a2: Array) returns (r: Result<Array>)
    ensures r == ElementwiseSpec(a1, a2, Plus)
  {
    r := ComputeElementwiseWithOtherArray(a1, a2, Plus);
  }

  method Sub(a1: Array, a2: Array) returns (r: Result<Array>)
    ensures r == ElementwiseSpec(a1, a2, Minus)
  {
    r := ComputeElementwiseWithOtherArray(a1, a2, Minus);
  }

  method Mul(a1: Array, a2: Array) returns (r: Result<Array>)
    ensures r == ElementwiseSpec(a1, a2, Times)
  {
    r := ComputeElementwiseWithOtherArray(a1, a2, Times);
  }

  method Div(a1: Array, a2: Array) returns (r: Result<Array>)
    ensures r == ElementwiseSpec(a1, a2, Quotient)
  {
    r := ComputeElementwiseWithOtherArray(a1, a2, Quotient);
  }

  /** Negating twice gives the array back. */
  lemma NegTwice(a: Array)
    ensures Mapped(Mapped(a, Negate), Negate) == a
  {
    assert Mapped(Mapped(a, Negate), Negate).data == a.data;
  }

  /** Negation is multiplication by the scalar -1. */
  lemma NegIsScaling(a: Array)
    ensures Mapped(a, Negate) == ScalarResult(a, -1.0, Times)
  {
    assert Mapped(a, Negate).data == ScalarResult(a, -1.0, Times).data;
  }

  /** Subtracting a scalar undoes adding it. */
  lemma AddSubScalar(a: Array, s: real)
    ensures ScalarResult(ScalarResult(a, s, Plus), s, Minus) == a
  {
    assert ScalarResult(ScalarResult(a, s, Plus), s, Minus).data == a.data;
  }

  /** Dividing by a non-zero scalar undoes multiplying by it. */
  lemma MulDivScalar(a: Array, s: real)
    requires s != 0.0
    ensures ScalarResult(ScalarResult(a, s, Times), s, Quotient) == a
  {
    var m := ScalarResult(a, s, Times);
    var b := ScalarResult(m, s, Quotient);
    forall k | 0 <= k < |a.data|
      ensures b.data[k] == a.data[k]
    {
      assert m.data[k] == Times(a.data[k], s);
      assert b.data[k] == Quotient(m.data[k], s);
    }
    assert b.data == a.data;
  }

  /** Fails unless the array has at least two dimensions; otherwise swaps the last two. */
  function GetTransposedShape(shape: seq<nat>): (r: Result<seq<nat>>)
    ensures r.Ok? <==> |shape| >= 2
    ensures r.Err? ==> r.error == ShapeError
    ensures r.Ok? ==> |r.value| == |shape| && r.value[..|shape| - 2] == shape[..|shape| - 2]
    ensures r.Ok? ==> r.value[|shape| - 2] == shape[|shape| - 1] && r.value[|shape| - 1] == shape[|shape| - 2]
  {
    if |shape| < 2 then Err(ShapeError)
    else
      var n := |shape|;
      Ok(shape[n - 2 := shape[n - 1]][n - 1 := shape[n - 2]])
  }

  /** Swapping the last two dimensions twice gives the shape back. */
  lemma TransposedShapeTwice(shape: seq<nat>)
    requires |shape| >= 2
    ensures GetTransposedShape(GetTransposedShape(shape).value) == Ok(shape)
  {
    var n := |shape|;
    var t := GetTransposedShape(shape).value;
    var u := GetTransposedShape(t).value;
    assert forall i :: 0 <= i < n - 2 ==> u[i] == t[i] == shape[i];
    assert u == shape;
  }

  /**
   * The first `n` blocks of `rows * cols` elements of `data`, each transposed
   * as a `rows x cols` matrix, one after another.
   */
  function BatchTransposed(data: seq<real>, rows: nat, cols: nat, n: nat): (t: seq<real>)
    requires |data| == n * (rows * cols)
    ensures |t| == |data|
    decreases n
  {
    if n == 0 then []
    else
      var len: nat := rows * cols;
      BlockEnd(n - 1, n, len);
      BatchTransposed(data[..(n - 1) * len], rows, cols, n - 1) + Transposed2D(data[(n - 1) * len..], rows, cols)
  }

  /** Transposing every block twice, with the dimensions swapped back, gives the data back. */
  lemma {:induction false} BatchTransposedTwice(data: seq<real>, rows: nat, cols: nat, n: nat)
    requires |data| == n * (rows * cols)
    ensures |BatchTransposed(data, rows, cols, n)| == n * (cols * rows)
    ensures BatchTransposed(BatchTransposed(data, rows, cols, n), cols, rows, n) == data
    decreases n
  {
    if n > 0 {
      var len: nat := rows * cols;
      BlockEnd(n - 1, n, len);
      var m: nat := (n - 1) * len;
      var t := BatchTransposed(data, rows, cols, n);
      var front, back := data[..m], data[m..];
      BatchTransposedSplit(data, rows, cols, n, m);
      BatchTransposedSplit(t, cols, rows, n, m);
      assert t[..m] == BatchTransposed(front, rows, cols, n - 1);
      assert t[m..] == Transposed2D(back, rows, cols);
      BatchTransposedTwice(front, rows, cols, n - 1);
      Transposed2DTwice(back, rows, cols);
      assert front + back == data;
    }
  }

  /** The last block of the batched transpose is the transpose of the last block. */
  lemma {:induction false} BatchTransposedSplit(data: seq<real>, rows: nat, cols: nat, n: nat, m: nat)
    requires |data| == n * (rows * cols) && n > 0 && m == (n - 1) * (rows * cols)
    ensures m <= |data| && |data| - m == rows * cols
    ensures BatchTransposed(data, rows, cols, n)
         == BatchTransposed(data[..m], rows, cols, n - 1) + Transposed2D(data[m..], rows, cols)
  {
    BlockEnd(n - 1, n, rows * cols);
  }

  /**
   * Block `q` of `t`, `rows * cols` elements long, is the transpose of block
   * `q` of `s` read as a `rows x cols` matrix.
   */
  predicate BlockIsTransposed(s: seq<real>, t: seq<real>, rows: nat, cols: nat, q: nat)
  {
    var lo: nat, len: nat := q * (rows * cols), rows * cols;
    lo + len <= |s| && lo + len <= |t| && t[lo..lo + len] == Transposed2D(s[lo..lo + len], rows, cols)
  }

  /** Block `q` of the batched transpose is the transpose of block `q`. */
  lemma {:induction false} BatchTransposedSlice(data: seq<real>, rows: nat, cols: nat, n: nat, q: nat)
    requires |data| == n * (rows * cols) && q < n
    ensures BlockIsTransposed(data, BatchTransposed(data, rows, cols, n), rows, cols, q)
    decreases n
  {
    var len: nat := rows * cols;
    var m: nat := (n - 1) * len;
    var lo: nat := q * len;
    BatchTransposedSplit(data, rows, cols, n, m);
    var front := BatchTransposed(data[..m], rows, cols, n - 1);
    var back := Transposed2D(data[m..], rows, cols);
    var t := BatchTransposed(data, rows, cols, n);
    assert t == front + back;
    if q < n - 1 {
      BatchTransposedSlice(data[..m], rows, cols, n - 1, q);
      assert lo + len <= m;
      SliceOfFront(front, back, lo, lo + len);
      SliceOfPrefix(data, m, lo, lo + len);
      assert front[lo..lo + len] == Transposed2D(data[..m][lo..lo + len], rows, cols);
    } else {
      assert lo == m;
      SliceOfBack(front, back, lo, lo + len);
      assert data[lo..lo + len] == data[m..];
    }
    assert t[lo..lo + len] == Transposed2D(data[lo..lo + len], rows, cols);
  }

  /** The transpose of `a`: the last two dimensions swapped, every trailing matrix transposed. */
  function TransposeSpec(a: Array): (r: Result<Array>)
    ensures r.Ok? <==> |a.shape| >= 2
    ensures r.Err? ==> r.error == ShapeError
    ensures r.Ok? ==> r.value.shape == GetTransposedShape(a.shape).value && |r.value.data| == |a.data|
  {
    var shape :- GetTransposedShape(a.shape);
    var n := |a.shape|;
    var lead := a.shape[..n - 2];
    BatchLayout(a.shape);
    ProductPermuted(a.shape, shape);
    Ok(RawArray(shape, BatchTransposed(a.data, a.shape[n - 2], a.shape[n - 1], Product(lead))))
  }

  /** A shape of rank two or more is its batch dimensions followed by one matrix. */
  lemma {:induction false} BatchLayout(shape: seq<nat>)
    requires |shape| >= 2
    ensures Product(shape[|shape| - 2..]) == shape[|shape| - 2] * shape[|shape| - 1]
    ensures Product(shape) == Product(shape[..|shape| - 2]) * (shape[|shape| - 2] * shape[|shape| - 1])
  {
    var n := |shape|;
    var lead, tail := shape[..n - 2], shape[n - 2..];
    assert shape == lead + tail;
    ProductAppend(lead, tail);
    assert Product(tail) == shape[n - 2] * shape[n - 1] by {
      assert tail[1..][1..] == [];
      assert Product(tail[1..]) == shape[n - 1] * Product(tail[1..][1..]);
    }
  }

  /** Swapping the last two dimensions keeps the element count and introduces no zero dimension. */
  lemma {:induction false} ProductPermuted(shape: seq<nat>, t: seq<nat>)
    requires |shape| >= 2 && GetTransposedShape(shape) == Ok(t)
    ensures Product(t) == Product(shape)
    ensures 0 !in shape ==> 0 !in t
  {
    var n := |shape|;
    var lead, x, y := shape[..n - 2], shape[n - 2], shape[n - 1];
    assert shape == lead + [x, y];
    assert t == lead + [y, x];
    ProductAppend(lead, [x, y]);
    ProductAppend(lead, [y, x]);
    ProductOfTwo(x, y);
    ProductOfTwo(y, x);
  }

  /** The data of the transpose of `a` is the batched transpose of its trailing matrices. */
  lemma {:induction false} TransposeData(a: Array)
    requires |a.shape| >= 2
    ensures TransposeSpec(a).Ok?
    ensures |a.data| == Product(a.shape[..|a.shape| - 2]) * (a.shape[|a.shape| - 2] * a.shape[|a.shape| - 1])
    ensures TransposeSpec(a).value.data
         == BatchTransposed(a.data, a.shape[|a.shape| - 2], a.shape[|a.shape| - 1], Product(a.shape[..|a.shape| - 2]))
  {
    BatchLayout(a.shape);
  }

  /** Appending the transpose of block `i` extends the batched transpose by one block. */
  lemma {:induction false} BatchStep(data: seq<real>, out: seq<real>, rows: nat, cols: nat, i: nat, off: nat,
                                     before: seq<real>)
    requires off == i * (rows * cols) && off + rows * cols <= |data| && off + rows * cols <= |out|
    requires before == BatchTransposed(data[..off], rows, cols, i) && out[..off] == before
    requires out[off..off + rows * cols] == Transposed2D(data[off..off + rows * cols], rows, cols)
    ensures out[..off + rows * cols] == BatchTransposed(data[..off + rows * cols], rows, cols, i + 1)
  {
    var len: nat := rows * cols;
    var d := data[..off + len];
    MulDistrib(i, 1, len);
    assert d[..i * len] == data[..off];
    assert d[i * len..] == data[off..off + len];
    assert out[..off + len] == out[..off] + out[off..off + len];
  }

  /** The first `i` blocks of `out`, which end at `off`, hold the first `i` blocks of `data` transposed. */
  ghost predicate BlocksTransposed(out: array<real>, data: seq<real>, rows: nat, cols: nat, i: nat, off: nat)
    reads out
  {
    off == i * (rows * cols) && off <= |data| && off <= out.Length
    && out[..off] == BatchTransposed(data[..off], rows, cols, i)
  }

  /** One pass of the block loop: transposes block `i` of `data` into block `i` of `out`. */
  method TransposeBlock(data: seq<real>, rows: nat, cols: nat, out: array<real>, i: nat, off: nat)
    requires BlocksTransposed(out, data, rows, cols, i, off)
    requires off + rows * cols <= |data| == out.Length
    modifies out
    ensures BlocksTransposed(out, data, rows, cols, i + 1, off + rows * cols)
  {
    ghost var before := out[..off];
    var r := Transpose2DMatrixSlices(data[off..off + rows * cols], rows, cols, out, off, off + rows * cols);
    BatchStep(data, out[..], rows, cols, i, off, before);
    MulDistrib(i, 1, rows * cols);
  }

  /** The buffer of `a` is `blocks` blocks of `rows x cols` elements, `rows` and `cols` its last two dimensions. */
  lemma {:induction false} TransposeLayout(a: Array, rows: nat, cols: nat, blocks: nat)
    requires |a.shape| >= 2 && rows == a.shape[|a.shape| - 2] && cols == a.shape[|a.shape| - 1]
    requires blocks == Product(a.shape[..|a.shape| - 2])
    ensures rows * cols > 0 && |a.data| / (rows * cols) == blocks && blocks * (rows * cols) == |a.data|
  {
    BatchLayout(a.shape);
    ProductPositive(a.shape);
    DivModOf(blocks, 0, rows * cols);
  }

  /** Once every block is transposed, the buffer holds the data of the transpose. */
  lemma {:induction false} TransposeFinished(a: Array, rows: nat, cols: nat, blocks: nat, o: seq<real>, off: nat)
    requires |a.shape| >= 2 && rows == a.shape[|a.shape| - 2] && cols == a.shape[|a.shape| - 1]
    requires blocks == Product(a.shape[..|a.shape| - 2]) && blocks * (rows * cols) == |a.data|
    requires |o| == |a.data| == off && o[..off] == BatchTransposed(a.data[..off], rows, cols, blocks)
    ensures TransposeSpec(a).Ok? && o == TransposeSpec(a).value.data
  {
    assert o == o[..off];
    assert a.data[..off] == a.data;
    TransposeData(a);
  }

  /**
   * Transposes each `rows x cols` block of `a`'s buffer into the same block
   * of `out`, where `rows` and `cols` are `a`'s last two dimensions.
   */
  method TransposeOnMemBuffer(a: Array, out: array<real>)
    requires |a.shape| >= 2 && out.Length == |a.data|
    modifies out
    ensures TransposeSpec(a).Ok? && out[..] == TransposeSpec(a).value.data
  {
    var rows, cols := a.shape[|a.shape| - 2], a.shape[|a.shape| - 1];
    ghost var blocks := Product(a.shape[..|a.shape| - 2]);
    TransposeLayout(a, rows, cols, blocks);
    var sliceLen: nat := rows * cols;
    var numSlices := out.Length / sliceLen;
    var off: nat := 0;
    for i := 0 to numSlices
      invariant BlocksTransposed(out, a.data, rows, cols, i, off)
    {
      BlockEnd(i, numSlices, sliceLen);
      TransposeBlock(a.data, rows, cols, out, i, off);
      off := off + sliceLen;
    }
    TransposeFinished(a, rows, cols, blocks, out[..], off);
  }

  /** Transposes the last two dimensions of `a`; fails when `a` has fewer than two. */
  method Transpose(a: Array) returns (r: Result<Array>)
    ensures r == TransposeSpec(a)
  {
    var shape :- GetTransposedShape(a.shape);
    var out := new real[|a.data|](_ => 0.0);
    TransposeOnMemBuffer(a, out);
    ProductPermuted(a.shape, shape);
    return Ok(RawArray(shape, out[..]));
  }

  /**
   * Every trailing matrix of the transpose is the transpose of the matching
   * matrix of the input: batch block `q` of the result is block `q` of `a`
   * transposed as a `rows x cols` matrix.
   */
  lemma {:induction false} TransposeBlockAt(a: Array, q: nat)
    requires |a.shape| >= 2 && q < Product(a.shape[..|a.shape| - 2])
    ensures TransposeSpec(a).Ok?
    ensures BlockIsTransposed(a.data, TransposeSpec(a).value.data, a.shape[|a.shape| - 2], a.shape[|a.shape| - 1], q)
  {
    TransposeData(a);
    BatchTransposedSlice(a.data, a.shape[|a.shape| - 2], a.shape[|a.shape| - 1], Product(a.shape[..|a.shape| - 2]), q);
  }

  /** Transposing twice gives the array back. */
  lemma {:induction false} TransposeTwice(a: Array)
    requires |a.shape| >= 2
    ensures TransposeSpec(a).Ok? && TransposeSpec(TransposeSpec(a).value) == Ok(a)
  {
    var n := |a.shape|;
    var t := TransposeSpec(a).value;
    TransposedShapeTwice(a.shape);
    assert t.shape[..n - 2] == a.shape[..n - 2];
    TransposeData(a);
    TransposeData(t);
    BatchTransposedTwice(a.data, a.shape[n - 2], a.shape[n - 1], Product(a.shape[..n - 2]));
  }

  /** The documented example of `add`: [1, ..., 8] + [2, ..., 9] in shape [2, 1, 4]. */
  lemma AddExample(a1: Array, a2: Array)
    requires a1.shape == a2.shape == [2, 1, 4]
    requires a1.data == [1.0, 2.0, 3.0, 4.0, 5.0, 6.0, 7.0, 8.0]
    requires a2.data == [2.0, 3.0, 4.0, 5.0, 6.0, 7.0, 8.0, 9.0]
    ensures ElementwiseSpec(a1, a2, Plus) == Ok(RawArray([2, 1, 4], [3.0, 5.0, 7.0, 9.0, 11.0, 13.0, 15.0, 17.0]))
  {
    SameShapeExample(a1, a2, Plus, [3.0, 5.0, 7.0, 9.0, 11.0, 13.0, 15.0, 17.0]);
  }

  /** The documented example of `sub`: [1, ..., 8] - [2, ..., 9] in shape [2, 1, 4]. */
  lemma SubExample(a1: Array, a2: Array)
    requires a1.shape == a2.shape == [2, 1, 4]
    requires a1.data == [1.0, 2.0, 3.0, 4.0, 5.0, 6.0, 7.0, 8.0]
    requires a2.data == [2.0, 3.0, 4.0, 5.0, 6.0, 7.0, 8.0, 9.0]
    ensures ElementwiseSpec(a1, a2, Minus) == Ok(RawArray([2, 1, 4], seq(8, _ => -1.0)))
  {
    SameShapeExample(a1, a2, Minus, seq(8, _ => -1.0));
  }

  /** The documented example of `mul`: [1, ..., 8] * [2, ..., 9] in shape [2, 1, 4]. */
  lemma MulExample(a1: Array, a2: Array)
    requires a1.shape == a2.shape == [2, 1, 4]
    requires a1.data == [1.0, 2.0, 3.0, 4.0, 5.0, 6.0, 7.0, 8.0]
    requires a2.data == [2.0, 3.0, 4.0, 5.0, 6.0, 7.0, 8.0, 9.0]
    ensures ElementwiseSpec(a1, a2, Times) == Ok(RawArray([2, 1, 4], [2.0, 6.0, 12.0, 20.0, 30.0, 42.0, 56.0, 72.0]))
  {
    SameShapeExample(a1, a2, Times, [2.0, 6.0, 12.0, 20.0, 30.0, 42.0, 56.0, 72.0]);
  }

  /** The documented example of `div`: [2, 4, ..., 16] / [1, ..., 8] in shape [2, 1, 4] is all twos. */
  lemma DivExample(a1: Array, a2: Array)
    requires a1.shape == a2.shape == [2, 1, 4]
    requires a1.data == [2.0, 4.0, 6.0, 8.0, 10.0, 12.0, 14.0, 16.0]
    requires a2.data == [1.0, 2.0, 3.0, 4.0, 5.0, 6.0, 7.0, 8.0]
    ensures ElementwiseSpec(a1, a2, Quotient) == Ok(RawArray([2, 1, 4], seq(8, _ => 2.0)))
  {
    SameShapeExample(a1, a2, Quotient, seq(8, _ => 2.0));
  }

  /** Arrays of one shape combine into the array of the pairwise results. */
  lemma SameShapeExample(a1: Array, a2: Array, f: (real, real) -> real, expected: seq<real>)
    requires a1.shape == a2.shape && |expected| == |a1.data|
    requires forall k :: 0 <= k < |expected| ==> expected[k] == f(a1.data[k], a2.data[k])
    ensures ElementwiseSpec(a1, a2, f) == Ok(RawArray(a1.shape, expected))
  {
    ElementwiseSameShape(a1, a2, f);
    assert ElementwiseSpec(a1, a2, f).value.data == expected;
  }
}
