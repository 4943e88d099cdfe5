/**
 * Batched matrix product of two arrays.
 *
 * Both operands must have rank at least 2. Their last two dimensions are the
 * matrices (`rows1 x cols1` and `rows2 x cols2`); the dimensions in front of
 * them are batch dimensions and broadcast against each other. The result has
 * the broadcast batch dimensions followed by `[rows1, cols2]`, and its batch
 * block `i` is the 2-D product of the `i`-th pair of matrices a broadcast
 * iterator keeping two trailing dimensions yields.
 */
module ArrayMatmul {
  import opened Outcomes
  import opened Arith
  import opened Layout
  import opened Utils
  import opened ArrayCore
  import opened Broadcast
  import opened Kernels = Matmul
  import opened Elementwise
  import opened ArrayOps

  /** Every pair holds a `rows1 x cols1` and a `cols1 x cols2` matrix. */
  predicate PairsConformant(ps: seq<(seq<real>, seq<real>)>, rows1: nat, cols1: nat, cols2: nat)
  {
    forall k :: 0 <= k < |ps| ==> Conformant(ps[k].0, rows1, cols1, ps[k].1, cols2)
  }

  /** The products of the first `n` pairs, one `rows1 x cols2` block after another. */
  function Products(ps: seq<(seq<real>, seq<real>)>, rows1: nat, cols1: nat, cols2: nat, n: nat): seq<real>
    requires PairsConformant(ps, rows1, cols1, cols2) && n <= |ps|
  {
    if n == 0 then [] else Products(ps, rows1, cols1, cols2, n - 1) + MatProduct(ps[n - 1].0, rows1, cols1, ps[n - 1].1, cols2)
  }

  /** `n` pairs give `n` blocks of `rows1 * cols2` elements. */
  lemma {:induction false} ProductsLength(ps: seq<(seq<real>, seq<real>)>, rows1: nat, cols1: nat, cols2: nat, n: nat)
    requires PairsConformant(ps, rows1, cols1, cols2) && n <= |ps|
    ensures |Products(ps, rows1, cols1, cols2, n)| == n * (rows1 * cols2)
  {
    if n > 0 {
      ProductsLength(ps, rows1, cols1, cols2, n - 1);
      MulDistrib(n - 1, 1, rows1 * cols2);
    }
  }

  /** The elements of `out` from offset `lo` on are `block`. */
  predicate SliceIs(out: seq<real>, lo: nat, block: seq<real>)
  {
    lo + |block| <= |out| && out[lo..lo + |block|] == block
  }

  /**
   * Block `q` of `out`, `rows1 * cols2` elements long, holds the product of
   * the `rows1 x cols1` matrix `m1` and the `cols1 x cols2` matrix `m2`.
   */
  predicate HoldsProduct(out: seq<real>, q: nat, m1: seq<real>, rows1: nat, cols1: nat, m2: seq<real>, cols2: nat)
  {
    Conformant(m1, rows1, cols1, m2, cols2) && SliceIs(out, q * (rows1 * cols2), MatProduct(m1, rows1, cols1, m2, cols2))
  }

  /** Block `q` of the products of the first `n` pairs is the product of pair `q`. */
  lemma {:induction false} ProductsSlice(ps: seq<(seq<real>, seq<real>)>, rows1: nat, cols1: nat, cols2: nat, n: nat, q: nat)
    requires PairsConformant(ps, rows1, cols1, cols2) && q < n <= |ps|
    ensures SliceIs(Products(ps, rows1, cols1, cols2, n), q * (rows1 * cols2), MatProduct(ps[q].0, rows1, cols1, ps[q].1, cols2))
  {
    var len: nat := rows1 * cols2;
    var front := Products(ps, rows1, cols1, cols2, n - 1);
    var last := MatProduct(ps[n - 1].0, rows1, cols1, ps[n - 1].1, cols2);
    var lo: nat := q * len;
    ProductsLength(ps, rows1, cols1, cols2, n - 1);
    if q < n - 1 {
      ProductsSlice(ps, rows1, cols1, cols2, n - 1, q);
      BlockEnd(q, n - 1, len);
      SliceOfFront(front, last, lo, lo + len);
    } else {
      assert lo == |front|;
      SliceOfBack(front, last, lo, lo + len);
    }
  }

  /**
   * The facts about the operands' shapes a successful shape check gives: the
   * iterator keeping two trailing dimensions can be built, its slices are the
   * matrices, and the result holds one `rows1 x cols2` block per pair.
   */
  lemma {:induction false} MatmulLayout(a1: Array, a2: Array, shape: seq<nat>)
    requires GetShapeAfterBroadcastMatmul(a1.shape, a2.shape) == Ok(shape)
    ensures |a1.shape| >= 2 && |a2.shape| >= 2 && |shape| >= 2
    ensures ValidTrailing(a1.shape, a2.shape, 2) && 0 !in shape
    ensures GetSliceLen(a1.shape, 2) == a1.shape[|a1.shape| - 2] * a1.shape[|a1.shape| - 1]
    ensures GetSliceLen(a2.shape, 2) == a2.shape[|a2.shape| - 2] * a2.shape[|a2.shape| - 1]
    ensures Product(ResultShape(a1.shape, a2.shape, 2)) > 0
    ensures Product(shape) == Product(ResultShape(a1.shape, a2.shape, 2)) * (a1.shape[|a1.shape| - 2] * a2.shape[|a2.shape| - 1])
  {
    var n1, n2, n := |a1.shape|, |a2.shape|, |shape|;
    BatchLayout(a1.shape);
    BatchLayout(a2.shape);
    BatchLayout(shape);
    var batch := ResultShape(a1.shape, a2.shape, 2);
    assert shape[..n - 2] == batch;
    ResultShapePositive(a1.shape, a2.shape, 2);
    ProductPositive(batch);
    assert shape == batch + [shape[n - 2], shape[n - 1]];
  }

  /**
   * The batched product: fails when the shape check fails or when the inner
   * dimensions `cols1` and `rows2` differ (the first 2-D product then fails);
   * otherwise block `i` of the result is the product of the `i`-th pair of
   * matrices.
   */
  function MatmulSpec(a1: Array, a2: Array): (r: Result<Array>)
    ensures r.Ok? <==> GetShapeAfterBroadcastMatmul(a1.shape, a2.shape).Ok?
                       && a1.shape[|a1.shape| - 1] == a2.shape[|a2.shape| - 2]
    ensures r.Err? ==> r.error == ShapeError
    ensures r.Ok? ==> r.value.shape == GetShapeAfterBroadcastMatmul(a1.shape, a2.shape).value
  {
    var shape :- GetShapeAfterBroadcastMatmul(a1.shape, a2.shape);
    var rows1, cols1 := a1.shape[|a1.shape| - 2], a1.shape[|a1.shape| - 1];
    var rows2, cols2 := a2.shape[|a2.shape| - 2], a2.shape[|a2.shape| - 1];
    if cols1 != rows2 then Err(ShapeError)
    else
      MatmulLayout(a1, a2, shape);
      var ps := Pairs(a1, a2, 2);
      ProductsLength(ps, rows1, cols1, cols2, |ps|);
      Ok(RawArray(shape, Products(ps, rows1, cols1, cols2, |ps|)))
  }

  /** The first `i` blocks of `buff`, which end at `off`, hold the products of the first `i` pairs. */
  ghost predicate ProductsFilled(buff: array<real>, ps: seq<(seq<real>, seq<real>)>, rows1: nat, cols1: nat, cols2: nat,
                                 i: nat, off: nat)
    reads buff
  {
    PairsConformant(ps, rows1, cols1, cols2) && i <= |ps| && off <= buff.Length
    && buff[..off] == Products(ps, rows1, cols1, cols2, i)
  }

  /**
   * Writes the product of pair `i`, `p == ps[i]`, as block `i` of `buff`;
   * fails, leaving `buff` as it was, when the inner dimensions differ.
   */
  method WriteProduct(buff: array<real>, ghost ps: seq<(seq<real>, seq<real>)>, rows1: nat, cols1: nat, rows2: nat,
                      cols2: nat, i: nat, off: nat, p: (seq<real>, seq<real>)) returns (r: Outcome)
    requires i < |ps| && p == ps[i] && |p.0| == rows1 * cols1 && |p.1| == rows2 * cols2
    requires buff.Length == |ps| * (rows1 * cols2) && off == i * (rows1 * cols2)
    requires cols1 == rows2 ==> ProductsFilled(buff, ps, rows1, cols1, cols2, i, off)
    modifies buff
    ensures r.Pass? <==> cols1 == rows2
    ensures r.Fail? ==> r.error == ShapeError
    ensures off + rows1 * cols2 == (i + 1) * (rows1 * cols2)
    ensures r.Pass? ==> ProductsFilled(buff, ps, rows1, cols1, cols2, i + 1, off + rows1 * cols2)
  {
    var len: nat := rows1 * cols2;
    BlockEnd(i, |ps|, len);
    r := Matmul2DMatrixSlices(p.0, rows1, cols1, p.1, rows2, cols2, buff, off, off + len);
    if r.Pass? {
      ProductsLength(ps, rows1, cols1, cols2, i);
      PrefixSplit(buff[..], off, off + len);
      assert Products(ps, rows1, cols1, cols2, i + 1)
          == Products(ps, rows1, cols1, cols2, i) + MatProduct(ps[i].0, rows1, cols1, ps[i].1, cols2);
    }
  }

  /**
   * Writes the product of every pair the fresh iterator `it` yields, block
   * after block; fails at the first pair when the inner dimensions differ.
   */
  method FillProducts(it: BroadcastIterator, a1: Array, a2: Array, rows1: nat, cols1: nat, rows2: nat, cols2: nat,
                      ghost ps: seq<(seq<real>, seq<real>)>, buff: array<real>) returns (r: Outcome)
    requires it.Built() && it.Valid() && it.count == 0
    requires it.operand1 == a1 && it.operand2 == a2 && it.trailingDims == 2
    requires ValidTrailing(a1.shape, a2.shape, 2) && ps == Pairs(a1, a2, 2) && |ps| > 0
    requires GetSliceLen(a1.shape, 2) == rows1 * cols1 && GetSliceLen(a2.shape, 2) == rows2 * cols2
    requires buff.Length == |ps| * (rows1 * cols2)
    modifies it, buff
    ensures r.Pass? <==> cols1 == rows2
    ensures r.Fail? ==> r.error == ShapeError
    ensures r.Pass? ==> PairsConformant(ps, rows1, cols1, cols2) && buff[..] == Products(ps, rows1, cols1, cols2, |ps|)
  {
    var i: nat, off: nat := 0, 0;
    while true
      invariant it.Valid() && i == it.count <= |ps|
      invariant off == i * (rows1 * cols2)
      invariant i > 0 ==> cols1 == rows2
      invariant cols1 == rows2 ==> ProductsFilled(buff, ps, rows1, cols1, cols2, i, off)
      decreases |ps| - i
    {
      var pair := NextPair(it, a1, a2, 2, ps);
      if pair.None? {
        break;
      }
      r := WriteProduct(buff, ps, rows1, cols1, rows2, cols2, i, off, pair.value);
      if r.Fail? {
        return;
      }
      i, off := i + 1, off + rows1 * cols2;
    }
    ProductsLength(ps, rows1, cols1, cols2, |ps|);
    assert buff[..] == buff[..off];
    r := Pass;
  }

  /**
   * Multiplies `a1` by `a2` batch by batch; fails when the ranks are below 2,
   * the batch dimensions do not broadcast or the inner dimensions differ.
   */
  method Matmul(a1: Array, a2: Array) returns (r: Result<Array>)
    ensures r == MatmulSpec(a1, a2)
  {
    var shape :- GetShapeAfterBroadcastMatmul(a1.shape, a2.shape);
    var n1, n2 := |a1.shape|, |a2.shape|;
    var rows1, cols1 := a1.shape[n1 - 2], a1.shape[n1 - 1];
    var rows2, cols2 := a2.shape[n2 - 2], a2.shape[n2 - 1];
    var buff := new real[Product(shape)](_ => 0.0);
    MatmulLayout(a1, a2, shape);
    var created := BroadcastIterator.Create(a1, a2, 2);
    var filled := FillProducts(created.value, a1, a2, rows1, cols1, rows2, cols2, Pairs(a1, a2, 2), buff);
    if filled.Fail? {
      return Err(filled.error);
    }
    return Ok(RawArray(shape, buff[..]));
  }

  /**
   * Batch block `q` of the product, `rows1 * cols2` elements long, is the
   * 2-D product of the `q`-th pair of matrices the iterator yields.
   */
  lemma {:induction false} MatmulBlock(a1: Array, a2: Array, q: nat)
    requires |a1.shape| >= 2 && |a2.shape| >= 2 && MatmulSpec(a1, a2).Ok?
    requires ValidTrailing(a1.shape, a2.shape, 2) && q < |Pairs(a1, a2, 2)|
    ensures var rows1, cols1, cols2 := a1.shape[|a1.shape| - 2], a1.shape[|a1.shape| - 1], a2.shape[|a2.shape| - 1];
      var p := Pairs(a1, a2, 2)[q];
      HoldsProduct(MatmulSpec(a1, a2).value.data, q, p.0, rows1, cols1, p.1, cols2)
  {
    var rows1, cols1, cols2 := a1.shape[|a1.shape| - 2], a1.shape[|a1.shape| - 1], a2.shape[|a2.shape| - 1];
    MatmulData(a1, a2);
    var ps := Pairs(a1, a2, 2);
    ProductsSlice(ps, rows1, cols1, cols2, |ps|, q);
  }

  /** A successful product is the concatenation of the products of all pairs. */
  lemma {:induction false} MatmulData(a1: Array, a2: Array)
    requires |a1.shape| >= 2 && |a2.shape| >= 2 && MatmulSpec(a1, a2).Ok?
    ensures ValidTrailing(a1.shape, a2.shape, 2)
    ensures var rows1, cols1, cols2 := a1.shape[|a1.shape| - 2], a1.shape[|a1.shape| - 1], a2.shape[|a2.shape| - 1];
      var ps := Pairs(a1, a2, 2);
      PairsConformant(ps, rows1, cols1, cols2)
      && MatmulSpec(a1, a2).value.data == Products(ps, rows1, cols1, cols2, |ps|)
  {
    var shape := GetShapeAfterBroadcastMatmul(a1.shape, a2.shape).value;
    var rows1, cols1 := a1.shape[|a1.shape| - 2], a1.shape[|a1.shape| - 1];
    var rows2, cols2 := a2.shape[|a2.shape| - 2], a2.shape[|a2.shape| - 1];
    MatmulLayout(a1, a2, shape);
    assert cols1 == rows2;
    MatmulPairs(a1, a2, rows1, cols1, cols2);
    var ps := Pairs(a1, a2, 2);
    assert MatmulSpec(a1, a2) == Ok(RawArray(shape, Products(ps, rows1, cols1, cols2, |ps|)));
  }

  /** When the inner dimensions agree, every pair is a conformant pair of matrices. */
  lemma {:induction false} MatmulPairs(a1: Array, a2: Array, rows1: nat, cols1: nat, cols2: nat)
    requires ValidTrailing(a1.shape, a2.shape, 2)
    requires GetSliceLen(a1.shape, 2) == rows1 * cols1 && GetSliceLen(a2.shape, 2) == cols1 * cols2
    ensures PairsConformant(Pairs(a1, a2, 2), rows1, cols1, cols2)
  {
  }

  /** A rank-2 right operand is the right matrix of every pair: it is shared by all batches. */
  lemma {:induction false} MatrixRightShared(a1: Array, a2: Array, k: nat)
    requires |a2.shape| == 2 && ValidTrailing(a1.shape, a2.shape, 2) && k < |Pairs(a1, a2, 2)|
    ensures Pairs(a1, a2, 2)[k].1 == a2.data
  {
    var r := ResultShape(a1.shape, a2.shape, 2);
    ResultShapePositive(a1.shape, a2.shape, 2);
    var c := Unrank(k, r);
    assert Pairs(a1, a2, 2)[k] == SlicePair(a1, a2, 2, k);
    OperandSliceWhole(a2, 2, c);
  }


  /** Shapes [2, 2, 3] and [3, 3, 2]: the batch dimensions 2 and 3 do not broadcast. */
  lemma MatmulWrongBroadcast(a1: Array, a2: Array)
    requires a1.shape == [2, 2, 3] && a2.shape == [3, 3, 2]
    ensures MatmulSpec(a1, a2) == Err(ShapeError)
  {
    assert a1.shape[..1] == [2] && a2.shape[..1] == [3];
    assert PaddedDim([2], 1, 0) == 2 && PaddedDim([3], 1, 0) == 3;
    assert !Compatible([2], [3]);
  }

  /** Shapes [2, 2, 3] and [3, 2]: the right matrix is shared and the result has shape [2, 2, 2]. */
  lemma MatmulBroadcastSmallerShape(a1: Array, a2: Array)
    requires a1.shape == [2, 2, 3] && a2.shape == [3, 2]
    ensures MatmulSpec(a1, a2).Ok? && MatmulSpec(a1, a2).value.shape == [2, 2, 2]
  {
    assert a1.shape[..1] == [2] && a2.shape[..0] == [];
    BroadcastOfSameRank([2], [1], [2]);
  }

  /** A [2, m, n] shape against a matrix shape: one batch dimension of 2, slices of `m * n` elements. */
  lemma {:induction false} BatchShapes(s1: seq<nat>, s2: seq<nat>)
    requires |s1| == 3 && s1[0] == 2 && |s2| == 2
    ensures ValidTrailing(s1, s2, 2) && ResultShape(s1, s2, 2) == [2] && Product([2]) == 2
    ensures GetSliceLen(s1, 2) == s1[1] * s1[2]
    ensures PadLeft(s1[..1], 1) == [2]
  {
    var p1, p2 := s1[..1], s2[..0];
    assert p1 == [2] && p2 == [];
    assert PaddedDim(p1, 1, 0) == 2 && PaddedDim(p2, 1, 0) == 1;
    assert Compatible(p1, p2) && GetShapeAfterBroadcast(p1, p2).value == [2];
    LeadingShapes(s1, s2, 2, p1, p2);
    assert s1[|s1| - 2..] == [s1[1], s1[2]] && [s1[1], s1[2]][1..] == [s1[2]] && [s1[2]][1..] == [];
    assert [2][1..] == [];
    assert Product([s1[2]]) == s1[2];
    assert Product([s1[1], s1[2]]) == s1[1] * s1[2];
    PadLeftSame(p1);
  }

  /** In a rank-1 shape the coordinate of offset `k` is `[k]`. */
  lemma {:induction false} UnrankOne(k: nat, n: nat)
    requires k < n
    ensures Unrank(k, [n]) == [k]
  {
    assert [n][1..] == [];
  }

  /** A [2, m, n] array against a matrix: pair `k` is batch `k` of the array with the whole matrix. */
  lemma {:induction false} BatchAgainstMatrix(a1: Array, a2: Array, k: nat)
    requires |a1.shape| == 3 && a1.shape[0] == 2 && |a2.shape| == 2 && k < 2
    ensures ValidTrailing(a1.shape, a2.shape, 2) && |Pairs(a1, a2, 2)| == 2
    ensures var n := a1.shape[1] * a1.shape[2];
      n * k + n <= |a1.data| && Pairs(a1, a2, 2)[k] == (a1.data[n * k..n * k + n], a2.data)
  {
    BatchShapes(a1.shape, a2.shape);
    MatrixRightShared(a1, a2, k);
    UnrankOne(k, 2);
    var c := [k];
    assert Pairs(a1, a2, 2)[k] == SlicePair(a1, a2, 2, k);
    var n := GetSliceLen(a1.shape, 2);
    OperandSliceAt(a1, 2, c, [2], n);
    assert Clamp(c, [2]) == c;
  }

  /** A [2, m, n] array times an [n, p] matrix: each of the two batches times the shared matrix, one after the other. */
  lemma {:induction false} TwoBatchesAgainstMatrix(a1: Array, a2: Array, m1: seq<real>, m2: seq<real>)
    requires |a1.shape| == 3 && a1.shape[0] == 2 && |a2.shape| == 2 && a1.shape[2] == a2.shape[0]
    requires a1.data == m1 + m2 && |m1| == |m2|
    ensures Conformant(m1, a1.shape[1], a1.shape[2], a2.data, a2.shape[1])
    ensures Conformant(m2, a1.shape[1], a1.shape[2], a2.data, a2.shape[1])
    ensures MatmulSpec(a1, a2) == Ok(RawArray([2, a1.shape[1], a2.shape[1]],
      MatProduct(m1, a1.shape[1], a1.shape[2], a2.data, a2.shape[1]) + MatProduct(m2, a1.shape[1], a1.shape[2], a2.data, a2.shape[1])))
  {
    var rows1, cols1, cols2 := a1.shape[1], a1.shape[2], a2.shape[1];
    var n := rows1 * cols1;
    BatchAgainstMatrix(a1, a2, 0);
    BatchAgainstMatrix(a1, a2, 1);
    var ps := Pairs(a1, a2, 2);
    assert ps[0].0 == m1 && ps[1].0 == m2 by {
      assert |m1| == n;
      assert a1.data[0..n] == m1 && a1.data[n..2 * n] == m2;
    }
    var shape := GetShapeAfterBroadcastMatmul(a1.shape, a2.shape).value;
    assert shape == [2, rows1, cols2] by {
      assert shape[..1] == ResultShape(a1.shape, a2.shape, 2) == [2];
    }
    MatmulData(a1, a2);
    ProductsOfTwo(ps, rows1, cols1, cols2);
  }

  /** The products of two pairs: the first pair's product followed by the second's. */
  lemma {:induction false} ProductsOfTwo(ps: seq<(seq<real>, seq<real>)>, rows1: nat, cols1: nat, cols2: nat)
    requires PairsConformant(ps, rows1, cols1, cols2) && |ps| == 2
    ensures Products(ps, rows1, cols1, cols2, 2)
         == MatProduct(ps[0].0, rows1, cols1, ps[0].1, cols2) + MatProduct(ps[1].0, rows1, cols1, ps[1].1, cols2)
  {
    assert Products(ps, rows1, cols1, cols2, 1) == [] + MatProduct(ps[0].0, rows1, cols1, ps[0].1, cols2);
  }

  /**
   * The product `test_matmul_broadcast_smaller_shape` asserts, of a [2, 2, 3] array with a [3, 2] matrix, the array given
   * as its two batches [1, 2, 3; 4, 5, 6] and [1, 2, 3; 3, 2, 1].
   */
  lemma {:induction false} MatmulBroadcastSmallerShapeValues(a1: Array, a2: Array)
    requires a1 == RawArray([2, 2, 3], [1.0, 2.0, 3.0, 4.0, 5.0, 6.0] + [1.0, 2.0, 3.0, 3.0, 2.0, 1.0])
    requires a2 == RawArray([3, 2], [1.0, 2.0, 3.0, 4.0, 5.0, 6.0])
    ensures MatmulSpec(a1, a2) == Ok(RawArray([2, 2, 2], [22.0, 28.0, 49.0, 64.0, 22.0, 28.0, 14.0, 20.0]))
  {
    TwoBatchesAgainstMatrix(a1, a2, a2.data, [1.0, 2.0, 3.0, 3.0, 2.0, 1.0]);
    MatProductExample(a2.data);
    MatProductSecondBatch([1.0, 2.0, 3.0, 3.0, 2.0, 1.0], a2.data);
    assert a1.shape[1] == 2 && a1.shape[2] == 3 && a2.shape[1] == 2;
    assert [22.0, 28.0, 49.0, 64.0] + [22.0, 28.0, 14.0, 20.0] == [22.0, 28.0, 49.0, 64.0, 22.0, 28.0, 14.0, 20.0];
  }

  /** Two matrices (rank-2 arrays) with agreeing inner dimensions multiply to their 2-D product. */
  lemma {:induction false} MatrixProduct(a1: Array, a2: Array)
    requires |a1.shape| == 2 && |a2.shape| == 2 && a1.shape[1] == a2.shape[0]
    ensures Conformant(a1.data, a1.shape[0], a1.shape[1], a2.data, a2.shape[1])
    ensures MatmulSpec(a1, a2)
         == Ok(RawArray([a1.shape[0], a2.shape[1]], MatProduct(a1.data, a1.shape[0], a1.shape[1], a2.data, a2.shape[1])))
  {
    var rows1, cols1, cols2 := a1.shape[0], a1.shape[1], a2.shape[1];
    assert a1.shape == [rows1, cols1] && a2.shape == [cols1, cols2];
    ProductOfTwo(rows1, cols1);
    ProductOfTwo(cols1, cols2);
    assert a1.shape[..0] == [] && a2.shape[..0] == [];
    assert GetShapeAfterBroadcast([], []) == Ok([]);
    assert GetShapeAfterBroadcastMatmul(a1.shape, a2.shape) == Ok([rows1, cols2]);
    MatmulData(a1, a2);
    var ps := Pairs(a1, a2, 2);
    var r := ResultShape(a1.shape, a2.shape, 2);
    assert r == [];
    SlicePairWhole(a1, a2, 2, r, 0);
    assert |ps| == 1 && ps[0] == (a1.data, a2.data);
    var m := MatmulSpec(a1, a2).value;
    assert m.data == Products(ps, rows1, cols1, cols2, 1);
    assert Products(ps, rows1, cols1, cols2, 1) == Products(ps, rows1, cols1, cols2, 0) + MatProduct(a1.data, rows1, cols1, a2.data, cols2);
    assert m.data == MatProduct(a1.data, rows1, cols1, a2.data, cols2);
    assert m.shape == [rows1, cols2];
  }

  /** A matrix transposes to its 2-D transpose, with the two dimensions swapped. */
  lemma {:induction false} MatrixTranspose(a: Array)
    requires |a.shape| == 2
    ensures |a.data| == a.shape[0] * a.shape[1]
    ensures TransposeSpec(a) == Ok(RawArray([a.shape[1], a.shape[0]], Transposed2D(a.data, a.shape[0], a.shape[1])))
  {
    var rows, cols := a.shape[0], a.shape[1];
    assert a.shape == [rows, cols];
    ProductOfTwo(rows, cols);
    TransposeData(a);
    assert a.shape[..0] == [];
    assert Product(a.shape[..0]) == 1;
    var t := TransposeSpec(a).value;
    assert t.data == BatchTransposed(a.data, rows, cols, 1);
    assert a.data[..0] == [] && a.data[0..] == a.data;
    assert BatchTransposed(a.data, rows, cols, 1) == BatchTransposed(a.data[..0], rows, cols, 0) + Transposed2D(a.data[0..], rows, cols);
    assert t.data == Transposed2D(a.data, rows, cols);
    assert t.shape == [cols, rows];
  }

  /** For matrices, the transpose of a product is the product of the transposes in the other order. */
  lemma {:induction false} MatmulTransposed(a1: Array, a2: Array)
    requires |a1.shape| == 2 && |a2.shape| == 2 && a1.shape[1] == a2.shape[0]
    ensures MatmulSpec(a1, a2).Ok? && TransposeSpec(a1).Ok? && TransposeSpec(a2).Ok?
    ensures MatmulSpec(TransposeSpec(a2).value, TransposeSpec(a1).value).Ok?
    ensures TransposeSpec(MatmulSpec(a1, a2).value) == MatmulSpec(TransposeSpec(a2).value, TransposeSpec(a1).value)
  {
    var rows1, cols1, cols2 := a1.shape[0], a1.shape[1], a2.shape[1];
    MatrixProduct(a1, a2);
    MatrixTranspose(a1);
    MatrixTranspose(a2);
    var p := MatmulSpec(a1, a2).value;
    MatrixTranspose(p);
    var t1, t2 := TransposeSpec(a1).value, TransposeSpec(a2).value;
    MatrixProduct(t2, t1);
    MatProductTransposed(a1.data, rows1, cols1, a2.data, cols2);
  }
}
