/**
 * The product of two row-major matrices held in buffer slices: the shape
 * checks, the specification of the product, and the general (triple loop)
 * kernel that writes it into a slice of an output buffer.
 */
module Matmul {
  import opened Outcomes
  import opened Arith
  import opened Utils

  /**
   * The checks made before a product, in order: the inner dimensions agree,
   * the output slice holds `rows1 * cols2` elements, and both inputs hold as
   * many elements as their dimensions say.
   */
  function CheckMatrixProductShapes(len1: nat, rows1: nat, cols1: nat, len2: nat, rows2: nat, cols2: nat,
                                    outLen: nat): (r: Outcome)
    ensures r.Pass? <==> cols1 == rows2 && outLen == rows1 * cols2 && len1 == rows1 * cols1 && len2 == rows2 * cols2
    ensures r.Fail? ==> r.error == ShapeError
  {
    if cols1 != rows2 then Fail(ShapeError)
    else if outLen != cols2 * rows1 then Fail(ShapeError)
    else if len1 != rows1 * cols1 then Fail(ShapeError)
    else if len2 != rows2 * cols2 then Fail(ShapeError)
    else Pass
  }

  /** The operands of a product of a `rows1 x cols1` and a `cols1 x cols2` matrix. */
  predicate Conformant(a: seq<real>, rows1: nat, cols1: nat, b: seq<real>, cols2: nat)
  {
    |a| == rows1 * cols1 && |b| == cols1 * cols2
  }

  /** Row `i` of the `rows x cols` row-major matrix `m`. */
  function Row(m: seq<real>, rows: nat, cols: nat, i: nat): (r: seq<real>)
    requires |m| == rows * cols && i < rows
    ensures |r| == cols
    ensures forall k :: 0 <= k < cols ==> r[k] == m[i * cols + k]
  {
    BlockEnd(i, rows, cols);
    m[i * cols..i * cols + cols]
  }

  /** Column `j` of the `rows x cols` row-major matrix `m`. */
  function Column(m: seq<real>, rows: nat, cols: nat, j: nat): (c: seq<real>)
    requires |m| == rows * cols && j < cols
    ensures |c| == rows
  {
    seq(rows, k requires 0 <= k < rows =>
      BlockIndex(k, j, cols, rows);
      m[k * cols + j])
  }

  /** The sum of the first `n` products `x[k] * y[k]`, added left to right. */
  function DotSeq(x: seq<real>, y: seq<real>, n: nat): real
    requires n <= |x| && n <= |y|
  {
    if n == 0 then 0.0 else DotSeq(x, y, n - 1) + x[n - 1] * y[n - 1]
  }

  /** The sum of the first `n` products of row `i` of `a` with column `j` of `b`, added left to right. */
  function Dot(a: seq<real>, rows1: nat, cols1: nat, b: seq<real>, cols2: nat, i: nat, j: nat, n: nat): real
    requires Conformant(a, rows1, cols1, b, cols2) && i < rows1 && j < cols2 && n <= cols1
  {
    DotSeq(Row(a, rows1, cols1, i), Column(b, cols1, cols2, j), n)
  }

  /** The `rows1 x cols2` product of `a` and `b`, row-major: offset `p` holds row `p / cols2`, column `p % cols2`. */
  function MatProduct(a: seq<real>, rows1: nat, cols1: nat, b: seq<real>, cols2: nat): (p: seq<real>)
    requires Conformant(a, rows1, cols1, b, cols2)
    ensures |p| == rows1 * cols2
  {
    seq(rows1 * cols2, q requires 0 <= q < rows1 * cols2 =>
      TransposedIndex(q, cols2, rows1);
      Dot(a, rows1, cols1, b, cols2, q / cols2, q % cols2, cols1))
  }

  /** Row `i`, column `j` of the product is the full dot product of row `i` and column `j`. */
  lemma {:induction false} MatProductAt(a: seq<real>, rows1: nat, cols1: nat, b: seq<real>, cols2: nat, i: nat, j: nat)
    requires Conformant(a, rows1, cols1, b, cols2) && i < rows1 && j < cols2
    ensures i * cols2 + j < rows1 * cols2
    ensures MatProduct(a, rows1, cols1, b, cols2)[i * cols2 + j] == Dot(a, rows1, cols1, b, cols2, i, j, cols1)
  {
    BlockIndex(i, j, cols2, rows1);
    DivModOf(i, j, cols2);
  }

  /** One dot product: the innermost loop of the kernel. */
  method DotProduct(a: seq<real>, rows1: nat, cols1: nat, b: seq<real>, cols2: nat, i: nat, j: nat)
    returns (sum: real)
    requires Conformant(a, rows1, cols1, b, cols2) && i < rows1 && j < cols2
    ensures sum == Dot(a, rows1, cols1, b, cols2, i, j, cols1)
  {
    sum := 0.0;
    for k := 0 to cols1
      invariant sum == Dot(a, rows1, cols1, b, cols2, i, j, k)
    {
      DotStep(a, rows1, cols1, b, cols2, i, j, k);
      sum := sum + a[i * cols1 + k] * b[k * cols2 + j];
    }
  }

  /** One more term of a dot product: element `k` of row `i` times element `k` of column `j`. */
  lemma {:induction false} DotStep(a: seq<real>, rows1: nat, cols1: nat, b: seq<real>, cols2: nat, i: nat, j: nat, k: nat)
    requires Conformant(a, rows1, cols1, b, cols2) && i < rows1 && j < cols2 && k < cols1
    ensures i * cols1 + k < |a| && k * cols2 + j < |b|
    ensures Dot(a, rows1, cols1, b, cols2, i, j, k + 1)
         == Dot(a, rows1, cols1, b, cols2, i, j, k) + a[i * cols1 + k] * b[k * cols2 + j]
  {
    BlockIndex(i, k, cols1, rows1);
    BlockIndex(k, j, cols2, cols1);
  }

  /**
   * Row `i` of the product, written at `out[lo + base..]` where `base` is the
   * row's offset `i * cols2`: the middle loop of the kernel.
   */
  method MatmulRow(a: seq<real>, rows1: nat, cols1: nat, b: seq<real>, cols2: nat, out: array<real>, lo: nat,
                   i: nat, base: nat)
    requires Conformant(a, rows1, cols1, b, cols2) && i < rows1 && base == i * cols2
    requires base + cols2 <= rows1 * cols2 && lo + rows1 * cols2 <= out.Length
    modifies out
    ensures forall q :: 0 <= q < out.Length && (q < lo + base || lo + base + cols2 <= q) ==> out[q] == old(out[q])
    ensures forall q :: lo + base <= q < lo + base + cols2 ==> out[q] == MatProduct(a, rows1, cols1, b, cols2)[q - lo]
  {
    ghost var p := MatProduct(a, rows1, cols1, b, cols2);
    for j := 0 to cols2
      invariant forall q :: 0 <= q < out.Length && (q < lo + base || lo + base + j <= q) ==> out[q] == old(out[q])
      invariant forall q :: lo + base <= q < lo + base + j ==> out[q] == p[q - lo]
    {
      var sum := DotProduct(a, rows1, cols1, b, cols2, i, j);
      MatProductAt(a, rows1, cols1, b, cols2, i, j);
      out[lo + base + j] := sum;
    }
  }

  /**
   * The general kernel: writes the product of the `rows1 x cols1` matrix `a`
   * and the `cols1 x cols2` matrix `b` into `out[lo..lo + rows1 * cols2]`,
   * overwriting whatever was there, and changes nothing else.
   */
  method GeneralMatmul2DMatrixSlices(a: seq<real>, rows1: nat, cols1: nat, b: seq<real>, cols2: nat,
                                     out: array<real>, lo: nat)
    requires Conformant(a, rows1, cols1, b, cols2) && lo + rows1 * cols2 <= out.Length
    modifies out
    ensures out[lo..lo + rows1 * cols2] == MatProduct(a, rows1, cols1, b, cols2)
    ensures out[..lo] == old(out[..lo]) && out[lo + rows1 * cols2..] == old(out[lo + rows1 * cols2..])
  {
    ghost var p := MatProduct(a, rows1, cols1, b, cols2);
    var n: nat := rows1 * cols2;
    var base := 0;
    for i := 0 to rows1
      invariant base == i * cols2 && base <= n
      invariant forall q :: 0 <= q < out.Length && (q < lo || lo + base <= q) ==> out[q] == old(out[q])
      invariant forall q :: lo <= q < lo + base ==> out[q] == p[q - lo]
    {
      MulLeft(i + 1, rows1, cols2);
      MulDistrib(i, 1, cols2);
      MatmulRow(a, rows1, cols1, b, cols2, out, lo, i, base);
      base := base + cols2;
    }
    assert out[lo..lo + n] == p;
    assert out[..lo] == old(out[..lo]);
    assert out[lo + n..] == old(out[lo + n..]);
  }

  /**
   * Multiplies two matrices held in slices into `out[lo..hi]`. Fails, changing
   * nothing, when the inner dimensions differ or a slice has the wrong length.
   */
  method Matmul2DMatrixSlices(a: seq<real>, rows1: nat, cols1: nat, b: seq<real>, rows2: nat, cols2: nat,
                              out: array<real>, lo: nat, hi: nat) returns (r: Outcome)
    requires lo <= hi <= out.Length
    modifies out
    ensures r.Pass? <==> cols1 == rows2 && hi - lo == rows1 * cols2 && |a| == rows1 * cols1 && |b| == rows2 * cols2
    ensures r.Fail? ==> r.error == ShapeError && out[..] == old(out[..])
    ensures r.Pass? ==> Conformant(a, rows1, cols1, b, cols2) && out[lo..hi] == MatProduct(a, rows1, cols1, b, cols2)
    ensures out[..lo] == old(out[..lo]) && out[hi..] == old(out[hi..])
  {
    r := CheckMatrixProductShapes(|a|, rows1, cols1, |b|, rows2, cols2, hi - lo);
    if r.Fail? {
      return;
    }
    GeneralMatmul2DMatrixSlices(a, rows1, cols1, b, cols2, out, lo);
  }

  /** Summing the products of `y` with `x` gives the same as summing those of `x` with `y`. */
  lemma {:induction false} DotSeqSwap(x: seq<real>, y: seq<real>, n: nat)
    requires n <= |x| && n <= |y|
    ensures DotSeq(y, x, n) == DotSeq(x, y, n)
  {
    if n > 0 {
      DotSeqSwap(x, y, n - 1);
    }
  }

  /** Row `j` of the transpose of `m` is column `j` of `m`. */
  lemma {:induction false} RowOfTransposed(m: seq<real>, rows: nat, cols: nat, j: nat)
    requires |m| == rows * cols && j < cols
    ensures |Transposed2D(m, rows, cols)| == cols * rows
    ensures Row(Transposed2D(m, rows, cols), cols, rows, j) == Column(m, rows, cols, j)
  {
    var r, c := Row(Transposed2D(m, rows, cols), cols, rows, j), Column(m, rows, cols, j);
    forall k | 0 <= k < rows
      ensures r[k] == c[k]
    {
      Transposed2DAt(m, rows, cols, k, j);
    }
  }

  /** Column `i` of the transpose of `m` is row `i` of `m`. */
  lemma {:induction false} ColumnOfTransposed(m: seq<real>, rows: nat, cols: nat, i: nat)
    requires |m| == rows * cols && i < rows
    ensures |Transposed2D(m, rows, cols)| == cols * rows
    ensures Column(Transposed2D(m, rows, cols), cols, rows, i) == Row(m, rows, cols, i)
  {
    var c, r := Column(Transposed2D(m, rows, cols), cols, rows, i), Row(m, rows, cols, i);
    forall k | 0 <= k < cols
      ensures c[k] == r[k]
    {
      Transposed2DAt(m, rows, cols, i, k);
    }
  }

  /** The dot products of the transposed operands, taken in swapped order, are the same sums. */
  lemma {:induction false} DotTransposed(a: seq<real>, rows1: nat, cols1: nat, b: seq<real>, cols2: nat,
                                         i: nat, j: nat)
    requires Conformant(a, rows1, cols1, b, cols2) && i < rows1 && j < cols2
    ensures Conformant(Transposed2D(b, cols1, cols2), cols2, cols1, Transposed2D(a, rows1, cols1), rows1)
    ensures Dot(Transposed2D(b, cols1, cols2), cols2, cols1, Transposed2D(a, rows1, cols1), rows1, j, i, cols1)
         == Dot(a, rows1, cols1, b, cols2, i, j, cols1)
  {
    RowOfTransposed(b, cols1, cols2, j);
    ColumnOfTransposed(a, rows1, cols1, i);
    DotSeqSwap(Row(a, rows1, cols1, i), Column(b, cols1, cols2, j), cols1);
  }

  /** Entry `q` of the transposed product is entry `q` of the product of the transposes. */
  lemma {:induction false} ProductTransposedAt(a: seq<real>, rows1: nat, cols1: nat, b: seq<real>, cols2: nat, q: nat)
    requires Conformant(a, rows1, cols1, b, cols2) && q < rows1 * cols2
    ensures Conformant(Transposed2D(b, cols1, cols2), cols2, cols1, Transposed2D(a, rows1, cols1), rows1)
    ensures Transposed2D(MatProduct(a, rows1, cols1, b, cols2), rows1, cols2)[q]
         == MatProduct(Transposed2D(b, cols1, cols2), cols2, cols1, Transposed2D(a, rows1, cols1), rows1)[q]
  {
    var bt, at := Transposed2D(b, cols1, cols2), Transposed2D(a, rows1, cols1);
    TransposedIndex(q, rows1, cols2);
    var i, j := q % rows1, q / rows1;
    DivMod(q, rows1);
    assert q == j * rows1 + i;
    Transposed2DAt(MatProduct(a, rows1, cols1, b, cols2), rows1, cols2, i, j);
    MatProductAt(a, rows1, cols1, b, cols2, i, j);
    MatProductAt(bt, cols2, cols1, at, rows1, j, i);
    DotTransposed(a, rows1, cols1, b, cols2, i, j);
  }

  /** The transpose of a product is the product of the transposes in the other order. */
  lemma {:induction false} MatProductTransposed(a: seq<real>, rows1: nat, cols1: nat, b: seq<real>, cols2: nat)
    requires Conformant(a, rows1, cols1, b, cols2)
    ensures Conformant(Transposed2D(b, cols1, cols2), cols2, cols1, Transposed2D(a, rows1, cols1), rows1)
    ensures Transposed2D(MatProduct(a, rows1, cols1, b, cols2), rows1, cols2)
         == MatProduct(Transposed2D(b, cols1, cols2), cols2, cols1, Transposed2D(a, rows1, cols1), rows1)
  {
    var lhs := Transposed2D(MatProduct(a, rows1, cols1, b, cols2), rows1, cols2);
    var rhs := MatProduct(Transposed2D(b, cols1, cols2), cols2, cols1, Transposed2D(a, rows1, cols1), rows1);
    forall q | 0 <= q < rows1 * cols2
      ensures lhs[q] == rhs[q]
    {
      ProductTransposedAt(a, rows1, cols1, b, cols2, q);
    }
  }

  lemma {:induction false} DotSeqOfThree(x: seq<real>, y: seq<real>)
    requires |x| == |y| == 3
    ensures DotSeq(x, y, 3) == x[0] * y[0] + x[1] * y[1] + x[2] * y[2]
  {
    assert DotSeq(x, y, 1) == x[0] * y[0];
  }

  /** A 2x3 matrix times a 3x2 matrix, both holding 1 to 6 row by row. */
  lemma {:induction false} MatProductExample(a: seq<real>)
    requires a == [1.0, 2.0, 3.0, 4.0, 5.0, 6.0]
    ensures Conformant(a, 2, 3, a, 2)
    ensures MatProduct(a, 2, 3, a, 2) == [22.0, 28.0, 49.0, 64.0]
  {
    var p := MatProduct(a, 2, 3, a, 2);
    MatProductAt(a, 2, 3, a, 2, 0, 0);
    MatProductAt(a, 2, 3, a, 2, 0, 1);
    MatProductAt(a, 2, 3, a, 2, 1, 0);
    MatProductAt(a, 2, 3, a, 2, 1, 1);
    assert Row(a, 2, 3, 0) == [1.0, 2.0, 3.0] && Row(a, 2, 3, 1) == [4.0, 5.0, 6.0];
    assert Column(a, 3, 2, 0) == [1.0, 3.0, 5.0] && Column(a, 3, 2, 1) == [2.0, 4.0, 6.0];
    DotSeqOfThree(Row(a, 2, 3, 0), Column(a, 3, 2, 0));
    DotSeqOfThree(Row(a, 2, 3, 0), Column(a, 3, 2, 1));
    DotSeqOfThree(Row(a, 2, 3, 1), Column(a, 3, 2, 0));
    DotSeqOfThree(Row(a, 2, 3, 1), Column(a, 3, 2, 1));
  }

  /** The second batch of the batched product in `test_matmul_broadcast_smaller_shape`: [1, 2, 3; 3, 2, 1] times the 3x2 matrix of 1..6 is [22, 28, 14, 20]. */
  lemma {:induction false} MatProductSecondBatch(a: seq<real>, b: seq<real>)
    requires a == [1.0, 2.0, 3.0, 3.0, 2.0, 1.0] && b == [1.0, 2.0, 3.0, 4.0, 5.0, 6.0]
    ensures Conformant(a, 2, 3, b, 2)
    ensures MatProduct(a, 2, 3, b, 2) == [22.0, 28.0, 14.0, 20.0]
  {
    MatProductAt(a, 2, 3, b, 2, 0, 0);
    MatProductAt(a, 2, 3, b, 2, 0, 1);
    MatProductAt(a, 2, 3, b, 2, 1, 0);
    MatProductAt(a, 2, 3, b, 2, 1, 1);
    assert Row(a, 2, 3, 0) == [1.0, 2.0, 3.0] && Row(a, 2, 3, 1) == [3.0, 2.0, 1.0];
    assert Column(b, 3, 2, 0) == [1.0, 3.0, 5.0] && Column(b, 3, 2, 1) == [2.0, 4.0, 6.0];
    DotSeqOfThree(Row(a, 2, 3, 0), Column(b, 3, 2, 0));
    DotSeqOfThree(Row(a, 2, 3, 0), Column(b, 3, 2, 1));
    DotSeqOfThree(Row(a, 2, 3, 1), Column(b, 3, 2, 0));
    DotSeqOfThree(Row(a, 2, 3, 1), Column(b, 3, 2, 1));
  }
}
