/**
 * Reduction of an array along one axis, or over all of its elements, with a
 * binary reducer; and the sum, product, maximum, minimum and mean built on it.
 *
 * Reducing axis `k` of shape `s` groups the buffer into `outer` blocks of
 * `slide = s[k] * inner` elements, where `outer = Product(s[..k])` and
 * `inner = Product(s[k+1..])`. Output element `o * inner + row` folds the
 * line `data[o * slide + j * inner + row]`, `j < s[k]`, onto its first
 * element. Reducing every axis folds the whole buffer onto zero.
 */
module Reduction {
  import opened Outcomes
  import opened Arith
  import opened Layout
  import opened ArrayCore
  import opened Broadcast
  import opened ArrayOps

  /** Fails when the axis to reduce is not a dimension of `shape`. */
  function CheckReduceAxis(shape: seq<nat>, axis: Option<nat>): (r: Outcome)
    ensures r.Pass? <==> (axis.Some? ==> axis.value < |shape|)
    ensures r.Fail? ==> r.error == ShapeError
  {
    if axis.Some? && axis.value >= |shape| then Fail(ShapeError) else Pass
  }

  /**
   * The shape of a reduction: the reduced axis becomes 1 or disappears; with
   * no axis every dimension becomes 1, or the shape collapses to `[1]`.
   */
  function GetShapeAfterReduce(shape: seq<nat>, axis: Option<nat>, keepDims: bool): (r: Result<seq<nat>>)
    ensures r.Ok? <==> CheckReduceAxis(shape, axis).Pass?
    ensures r.Err? ==> r.error == ShapeError
    ensures r.Ok? ==> |r.value| == if keepDims then |shape| else if axis.Some? then |shape| - 1 else 1
    ensures r.Ok? && keepDims ==>
      forall i :: 0 <= i < |shape| ==> r.value[i] == if axis.None? || i == axis.value then 1 else shape[i]
    ensures r.Ok? && !keepDims && axis.Some? ==>
      forall i :: 0 <= i < |r.value| ==> r.value[i] == shape[if i < axis.value then i else i + 1]
    ensures r.Ok? && !keepDims && axis.None? ==> r.value == [1]
  {
    var check := CheckReduceAxis(shape, axis);
    if check.IsFailure() then check.PropagateFailure()
    else match axis
    case Some(k) => if keepDims then Ok(shape[k := 1]) else Ok(shape[..k] + shape[k + 1..])
    case None => if keepDims then Ok(seq(|shape|, _ => 1)) else Ok([1])
  }

  /** How many input elements each output element of a reduction gathers. */
  function ReducedCount(a: Array, axis: Option<nat>): (n: nat)
    requires CheckReduceAxis(a.shape, axis).Pass?
    ensures n > 0
  {
    match axis
    case Some(k) => a.shape[k]
    case None => ProductPositive(a.shape); |a.data|
  }

  /** The three factors of a shape around axis `k`. */
  lemma {:induction false} AxisLayout(shape: seq<nat>, k: nat)
    requires k < |shape|
    ensures Product(shape[k..]) == shape[k] * Product(shape[k + 1..])
    ensures Product(shape) == Product(shape[..k]) * (shape[k] * Product(shape[k + 1..]))
    ensures Product(shape[..k] + shape[k + 1..]) == Product(shape[..k]) * Product(shape[k + 1..])
    ensures Product(shape[k := 1]) == Product(shape[..k]) * Product(shape[k + 1..])
  {
    assert shape == shape[..k] + shape[k..];
    assert shape[k..][1..] == shape[k + 1..];
    ProductAppend(shape[..k], shape[k..]);
    ProductAppend(shape[..k], shape[k + 1..]);
    var one := shape[k := 1];
    assert one == shape[..k] + one[k..];
    assert one[k..][1..] == shape[k + 1..];
    ProductAppend(shape[..k], one[k..]);
  }

  /**
   * A reduced shape has no zero dimension, and it has as many elements as
   * the input has divided by the count each output element gathers.
   */
  lemma {:induction false} ReduceShape(shape: seq<nat>, axis: Option<nat>, keepDims: bool)
    requires 0 !in shape && GetShapeAfterReduce(shape, axis, keepDims).Ok?
    ensures 0 !in GetShapeAfterReduce(shape, axis, keepDims).value
    ensures axis.Some? ==>
      Product(GetShapeAfterReduce(shape, axis, keepDims).value) == Product(shape[..axis.value]) * Product(shape[axis.value + 1..])
    ensures axis.None? ==> Product(GetShapeAfterReduce(shape, axis, keepDims).value) == 1
    ensures Product(GetShapeAfterReduce(shape, axis, keepDims).value) * (if axis.Some? then shape[axis.value] else Product(shape))
            == Product(shape)
  {
    var r := GetShapeAfterReduce(shape, axis, keepDims).value;
    match axis
    case Some(k) =>
      AxisLayout(shape, k);
      if keepDims {
        assert r == shape[k := 1];
      } else {
        assert r == shape[..k] + shape[k + 1..];
      }
      MulRotate(Product(shape[..k]), shape[k], Product(shape[k + 1..]));
    case None =>
      if keepDims {
        assert r == seq(|shape|, _ => 1);
        ProductOnes(|shape|);
      } else {
        assert r[1..] == [];
      }
  }

  /** The left fold `f(... f(f(acc, xs[0]), xs[1]) ..., xs[|xs| - 1])`. */
  function FoldLeft(f: (real, real) -> real, acc: real, xs: seq<real>): real
    decreases |xs|
  {
    if |xs| == 0 then acc else f(FoldLeft(f, acc, xs[..|xs| - 1]), xs[|xs| - 1])
  }

  /** A non-empty sequence folded onto its first element. */
  function FoldLine(f: (real, real) -> real, line: seq<real>): real
    requires |line| > 0
  {
    FoldLeft(f, line[0], line[1..])
  }

  /** The `dim` elements `data[base + j * stride]`, `j < dim`: one line along the reduced axis. */
  function Line(data: seq<real>, base: nat, stride: nat, dim: nat): (line: seq<real>)
    requires dim > 0 && base + (dim - 1) * stride < |data|
    ensures |line| == dim
  {
    seq(dim, j requires 0 <= j < dim => (MulLeft(j, dim - 1, stride); data[base + j * stride]))
  }

  /** Where the line of output element `m` starts: its block times the slide, plus its row in the block. */
  function LineBase(m: nat, dim: nat, inner: nat): nat
    requires inner > 0
  {
    (m / inner) * (dim * inner) + m % inner
  }

  /** The line of every output element lies inside the input buffer. */
  lemma {:induction false} LineFits(m: nat, outer: nat, dim: nat, inner: nat)
    requires inner > 0 && dim > 0 && m < outer * inner
    ensures LineBase(m, dim, inner) + (dim - 1) * inner < outer * (dim * inner)
  {
    DivMod(m, inner);
    DivBelow(m, inner, outer);
    BlockIndex(dim - 1, m % inner, inner, dim);
    BlockIndex(m / inner, (dim - 1) * inner + m % inner, dim * inner, outer);
  }

  /** The buffer of a reduction along an axis: one folded line per (block, row) pair. */
  function AxisReduced(data: seq<real>, f: (real, real) -> real, outer: nat, dim: nat, inner: nat): (out: seq<real>)
    requires dim > 0 && inner > 0 && |data| == outer * (dim * inner)
    ensures |out| == outer * inner
  {
    seq(outer * inner, m requires 0 <= m < outer * inner =>
      (LineFits(m, outer, dim, inner); FoldLine(f, Line(data, LineBase(m, dim, inner), inner, dim))))
  }

  /**
   * `reduce`: fails when the axis is out of range; otherwise the shape is the
   * reduced shape, an axis reduction folds each line onto its first element,
   * and a reduction of every axis folds the whole buffer onto zero.
   */
  function ReduceSpec(a: Array, f: (real, real) -> real, axis: Option<nat>, keepDims: bool): (r: Result<Array>)
    ensures r.Ok? <==> CheckReduceAxis(a.shape, axis).Pass?
    ensures r.Err? ==> r.error == ShapeError
    ensures r.Ok? ==> r.value.shape == GetShapeAfterReduce(a.shape, axis, keepDims).value
  {
    var shape :- GetShapeAfterReduce(a.shape, axis, keepDims);
    ReduceShape(a.shape, axis, keepDims);
    match axis
    case Some(k) =>
      AxisLayout(a.shape, k);
      ProductPositive(a.shape[k + 1..]);
      Ok(RawArray(shape, AxisReduced(a.data, f, Product(a.shape[..k]), a.shape[k], Product(a.shape[k + 1..]))))
    case None =>
      Ok(RawArray(shape, [FoldLeft(f, 0.0, a.data)]))
  }

  /** Each output element gathers `ReducedCount` input elements, and together they cover the input. */
  lemma {:induction false} ReduceLength(a: Array, f: (real, real) -> real, axis: Option<nat>, keepDims: bool)
    requires CheckReduceAxis(a.shape, axis).Pass?
    ensures |ReduceSpec(a, f, axis, keepDims).value.data| * ReducedCount(a, axis) == |a.data|
  {
    ReduceShape(a.shape, axis, keepDims);
  }

  /** Folds `xs` onto `init`, one element at a time. */
  method FoldAll(xs: seq<real>, f: (real, real) -> real, init: real) returns (acc: real)
    ensures acc == FoldLeft(f, init, xs)
  {
    acc := init;
    for i := 0 to |xs|
      invariant acc == FoldLeft(f, init, xs[..i])
    {
      assert xs[..i + 1][..i] == xs[..i];
      acc := f(acc, xs[i]);
    }
    assert xs[..|xs|] == xs;
  }

  /**
   * Folds the line `data[totalSlide + stride * j + row]` onto its first
   * element, adding the number of elements visited to `processed`.
   */
  method FoldAxis(data: seq<real>, f: (real, real) -> real, totalSlide: nat, row: nat, stride: nat, dim: nat,
                  processed: nat) returns (acc: real, count: nat)
    requires dim > 0 && totalSlide + row + (dim - 1) * stride < |data|
    ensures count == processed + dim
    ensures acc == FoldLine(f, Line(data, totalSlide + row, stride, dim))
  {
    ghost var line := Line(data, totalSlide + row, stride, dim);
    acc := data[totalSlide + row];
    count := processed + 1;
    for j := 1 to dim
      invariant count == processed + j
      invariant acc == FoldLeft(f, line[0], line[1..j])
    {
      count := count + 1;
      MulLeft(j, dim - 1, stride);
      assert line[j] == data[totalSlide + stride * j + row];
      assert line[1..j + 1][..j - 1] == line[1..j];
      acc := f(acc, data[totalSlide + stride * j + row]);
    }
    assert line[1..dim] == line[1..];
  }

  /** The output element `o * inner + c` starts its line at `o * slide + c`. */
  lemma {:induction false} RowStart(m: nat, o: nat, c: nat, outer: nat, dim: nat, inner: nat)
    requires dim > 0 && c < inner && m == o * inner + c && m < outer * inner
    ensures LineBase(m, dim, inner) == o * (dim * inner) + c
    ensures o * (dim * inner) + c + (dim - 1) * inner < outer * (dim * inner)
  {
    DivModOf(o, c, inner);
    LineFits(m, outer, dim, inner);
  }

  /**
   * After output element `o * inner + c`, `processed` is a multiple of the
   * slide exactly when the row `c` was the last of its block.
   */
  lemma {:induction false} SlideStep(o: nat, c: nat, inner: nat, dim: nat, processed: nat)
    requires dim > 0 && c < inner && processed == o * (dim * inner) + (c + 1) * dim
    ensures processed % (dim * inner) == 0 <==> c + 1 == inner
    ensures c + 1 == inner ==> processed == (o + 1) * (dim * inner) + 0 * dim && o * inner + c + 1 == (o + 1) * inner
  {
    if c + 1 < inner {
      MulLeft(c + 2, inner, dim);
      MulDistrib(c + 1, 1, dim);
      assert (c + 1) * dim < inner * dim;
      DivModOf(o, (c + 1) * dim, dim * inner);
    } else {
      MulDistrib(o, 1, dim * inner);
      MulDistrib(o, 1, inner);
      DivModOf(o + 1, 0, dim * inner);
    }
  }

  /**
   * The axis loop of `reduce`: one output element per pass, tracking the
   * start of the current block (`totalSlide`), the row inside it and the
   * number of input elements processed so far.
   */
  method FillAxis(data: seq<real>, f: (real, real) -> real, outer: nat, dim: nat, inner: nat, out: array<real>)
    requires dim > 0 && inner > 0 && |data| == outer * (dim * inner) && out.Length == outer * inner
    modifies out
    ensures out[..] == AxisReduced(data, f, outer, dim, inner)
  {
    ghost var target := AxisReduced(data, f, outer, dim, inner);
    var slide := dim * inner;
    var processed: nat, totalSlide: nat, currentRow: nat := 0, 0, 0;
    ghost var o: nat := 0;
    for m := 0 to out.Length
      invariant processed == o * slide + currentRow * dim
      invariant totalSlide == o * slide && m == o * inner + currentRow && currentRow < inner
      invariant PrefixAgrees(out[..], target, m)
    {
      RowStart(m, o, currentRow, outer, dim, inner);
      var acc;
      acc, processed := FoldAxis(data, f, totalSlide, currentRow, inner, dim, processed);
      PrefixStep(out[..], target, m, acc);
      out[m] := acc;
      SlideStep(o, currentRow, inner, dim, processed);
      currentRow := currentRow + 1;
      if processed % slide == 0 {
        totalSlide := totalSlide + slide;
        currentRow := 0;
        o := o + 1;
      }
    }
    PrefixAll(out[..], target);
  }

  /** `reduce`: the reduced shape, then either the axis loop or one fold over the whole buffer. */
  method Reduce(a: Array, f: (real, real) -> real, axis: Option<nat>, keepDims: bool) returns (r: Result<Array>)
    ensures r == ReduceSpec(a, f, axis, keepDims)
  {
    var newShape :- GetShapeAfterReduce(a.shape, axis, keepDims);
    ReduceShape(a.shape, axis, keepDims);
    var newData := new real[Product(newShape)](_ => 0.0);
    match axis {
      case Some(k) =>
        AxisLayout(a.shape, k);
        ProductPositive(a.shape[k + 1..]);
        var inner := Product(a.shape[k + 1..]);
        FillAxis(a.data, f, Product(a.shape[..k]), a.shape[k], inner, newData);
      case None =>
        var acc := FoldAll(a.data, f, 0.0);
        newData[0] := acc;
        assert newData[..] == [acc];
    }
    r := Ok(RawArray(newShape, newData[..]));
  }

  function Larger(x: real, y: real): real { if x >= y then x else y }

  function Smaller(x: real, y: real): real { if x <= y then x else y }

  method ReduceSum(a: Array, axis: Option<nat>, keepDims: bool) returns (r: Result<Array>)
    ensures r == ReduceSpec(a, Plus, axis, keepDims)
  {
    r := Reduce(a, Plus, axis, keepDims);
  }

  method ReduceProd(a: Array, axis: Option<nat>, keepDims: bool) returns (r: Result<Array>)
    ensures r == ReduceSpec(a, Times, axis, keepDims)
  {
    r := Reduce(a, Times, axis, keepDims);
  }

  method ReduceMax(a: Array, axis: Option<nat>, keepDims: bool) returns (r: Result<Array>)
    ensures r == ReduceSpec(a, Larger, axis, keepDims)
  {
    r := Reduce(a, Larger, axis, keepDims);
  }

  method ReduceMin(a: Array, axis: Option<nat>, keepDims: bool) returns (r: Result<Array>)
    ensures r == ReduceSpec(a, Smaller, axis, keepDims)
  {
    r := Reduce(a, Smaller, axis, keepDims);
  }

  /** `reduce_mean`: the sum divided by the number of elements each output element gathers. */
  function MeanSpec(a: Array, axis: Option<nat>, keepDims: bool): (r: Result<Array>)
    ensures r.Ok? <==> CheckReduceAxis(a.shape, axis).Pass?
    ensures r.Err? ==> r.error == ShapeError
    ensures r.Ok? ==> r.value.shape == GetShapeAfterReduce(a.shape, axis, keepDims).value
  {
    var sum :- ReduceSpec(a, Plus, axis, keepDims);
    Ok(ScalarResult(sum, ReducedCount(a, axis) as real, Quotient))
  }

  /** Every mean times the number of elements it gathers is the corresponding sum. */
  lemma {:induction false} MeanTimesCount(a: Array, axis: Option<nat>, keepDims: bool)
    requires CheckReduceAxis(a.shape, axis).Pass?
    ensures forall i :: 0 <= i < |MeanSpec(a, axis, keepDims).value.data| ==>
      Times(MeanSpec(a, axis, keepDims).value.data[i], ReducedCount(a, axis) as real) == ReduceSpec(a, Plus, axis, keepDims).value.data[i]
  {
    var sum := ReduceSpec(a, Plus, axis, keepDims).value;
    var count := ReducedCount(a, axis);
    DividedTimesCount(sum, count);
  }

  /** Every element of `a` divided by a positive `n`, times `n`, is the element again. */
  lemma {:induction false} DividedTimesCount(a: Array, count: nat)
    requires count > 0
    ensures forall i :: 0 <= i < |a.data| ==> Times(ScalarResult(a, count as real, Quotient).data[i], count as real) == a.data[i]
  {
    var n := count as real;
    var q := ScalarResult(a, n, Quotient);
    forall i | 0 <= i < |a.data|
      ensures Times(q.data[i], n) == a.data[i]
    {
      assert q.data[i] == Quotient(a.data[i], n) == a.data[i] / n;
    }
  }

  method ReduceMean(a: Array, axis: Option<nat>, keepDims: bool) returns (r: Result<Array>)
    ensures r == MeanSpec(a, axis, keepDims)
  {
    var sum :- ReduceSum(a, axis, keepDims);
    var count := if axis.Some? then a.shape[axis.value] else |a.data|;
    var mean := DivScalar(sum, count as real);
    r := Ok(mean);
  }

  // Properties of the reductions.

  /**
   * Output element `o * inner + row` of `out` is the line
   * `data[o * dim * inner + j * inner + row]`, `j < dim`, folded onto its first element.
   */
  predicate HoldsLineFold(out: seq<real>, data: seq<real>, f: (real, real) -> real, o: nat, row: nat, dim: nat, inner: nat)
  {
    var m, base := o * inner + row, o * (dim * inner) + row;
    dim > 0 && m < |out| && base + (dim - 1) * inner < |data| && out[m] == FoldLine(f, Line(data, base, inner, dim))
  }

  /** Reducing axis `k`: the element of block `o` and row `row` folds that block's line for that row. */
  lemma {:induction false} ReduceAxisAt(a: Array, f: (real, real) -> real, k: nat, keepDims: bool, o: nat, row: nat)
    requires k < |a.shape| && o < Product(a.shape[..k]) && row < Product(a.shape[k + 1..])
    ensures ReduceSpec(a, f, Some(k), keepDims).Ok?
    ensures HoldsLineFold(ReduceSpec(a, f, Some(k), keepDims).value.data, a.data, f, o, row, a.shape[k], Product(a.shape[k + 1..]))
  {
    var outer, dim, inner := Product(a.shape[..k]), a.shape[k], Product(a.shape[k + 1..]);
    AxisLayout(a.shape, k);
    var out := ReduceSpec(a, f, Some(k), keepDims).value.data;
    assert out == AxisReduced(a.data, f, outer, dim, inner);
    var m: nat := o * inner + row;
    BlockIndex(o, row, inner, outer);
    RowStart(m, o, row, outer, dim, inner);
  }

  /** Reducing an axis of length 1 and keeping it gives the array back, whatever the reducer. */
  lemma {:induction false} ReduceUnitAxis(a: Array, f: (real, real) -> real, k: nat)
    requires k < |a.shape| && a.shape[k] == 1
    ensures ReduceSpec(a, f, Some(k), true) == Ok(a)
  {
    var outer, inner := Product(a.shape[..k]), Product(a.shape[k + 1..]);
    AxisLayout(a.shape, k);
    ProductPositive(a.shape[k + 1..]);
    assert a.shape[k := 1] == a.shape;
    var out := AxisReduced(a.data, f, outer, 1, inner);
    forall m | 0 <= m < |out|
      ensures out[m] == a.data[m]
    {
      DivMod(m, inner);
      LineFits(m, outer, 1, inner);
      assert LineBase(m, 1, inner) == m;
      var line := Line(a.data, m, inner, 1);
      assert line == [a.data[m]];
      assert line[1..] == [];
    }
    assert out == a.data;
  }

  /** The data of a reduction does not depend on whether the reduced dimensions are kept. */
  lemma {:induction false} ReduceKeepDimsSameData(a: Array, f: (real, real) -> real, axis: Option<nat>)
    requires CheckReduceAxis(a.shape, axis).Pass?
    ensures ReduceSpec(a, f, axis, true).value.data == ReduceSpec(a, f, axis, false).value.data
    ensures Product(ReduceSpec(a, f, axis, true).value.shape) == Product(ReduceSpec(a, f, axis, false).value.shape)
  {
    ReduceShape(a.shape, axis, true);
    ReduceShape(a.shape, axis, false);
  }

  /** Folding products onto zero gives zero. */
  lemma {:induction false} FoldTimesFromZero(xs: seq<real>)
    ensures FoldLeft(Times, 0.0, xs) == 0.0
    decreases |xs|
  {
    if |xs| > 0 {
      FoldTimesFromZero(xs[..|xs| - 1]);
    }
  }

  /** Since the whole-buffer fold starts from zero, the product over every axis is zero for every array. */
  lemma {:induction false} ReduceProdAllIsZero(a: Array, keepDims: bool)
    ensures ReduceSpec(a, Times, None, keepDims).Ok?
    ensures ReduceSpec(a, Times, None, keepDims).value.data == [0.0]
  {
    FoldTimesFromZero(a.data);
  }

  /**
   * Folding `Larger` onto `acc` gives an upper bound of `acc` and of every
   * element, and it is `acc` or one of the elements.
   */
  lemma {:induction false} FoldLargerBounds(acc: real, xs: seq<real>)
    ensures FoldLeft(Larger, acc, xs) >= acc
    ensures forall j :: 0 <= j < |xs| ==> FoldLeft(Larger, acc, xs) >= xs[j]
    ensures FoldLeft(Larger, acc, xs) == acc || FoldLeft(Larger, acc, xs) in xs
    decreases |xs|
  {
    if |xs| > 0 {
      var init, last := xs[..|xs| - 1], xs[|xs| - 1];
      FoldLargerBounds(acc, init);
      assert xs == init + [last];
      assert forall j :: 0 <= j < |init| ==> init[j] == xs[j];
    }
  }

  /** Output element `o * inner + row` of `out` is the largest element of its line. */
  predicate HoldsLineMax(out: seq<real>, data: seq<real>, o: nat, row: nat, dim: nat, inner: nat)
  {
    var m, base := o * inner + row, o * (dim * inner) + row;
    dim > 0 && m < |out| && base + (dim - 1) * inner < |data| &&
    IsMaxOf(out[m], Line(data, base, inner, dim))
  }

  /** `x` is an element of `line` and no element is larger. */
  predicate IsMaxOf(x: real, line: seq<real>)
  {
    x in line && forall j :: 0 <= j < |line| ==> x >= line[j]
  }

  /** A non-empty line folded with `Larger` onto its first element is its largest element. */
  lemma {:induction false} LineMaxOf(line: seq<real>)
    requires |line| > 0
    ensures IsMaxOf(FoldLine(Larger, line), line)
  {
    FoldLargerBounds(line[0], line[1..]);
    assert line == [line[0]] + line[1..];
  }

  /** Reducing an axis with `Larger` gives, for each line, its largest element. */
  lemma {:induction false} ReduceMaxAxisAt(a: Array, k: nat, keepDims: bool, o: nat, row: nat)
    requires k < |a.shape| && o < Product(a.shape[..k]) && row < Product(a.shape[k + 1..])
    ensures ReduceSpec(a, Larger, Some(k), keepDims).Ok?
    ensures HoldsLineMax(ReduceSpec(a, Larger, Some(k), keepDims).value.data, a.data, o, row, a.shape[k], Product(a.shape[k + 1..]))
  {
    ReduceAxisAt(a, Larger, k, keepDims, o, row);
    FoldLineMax(ReduceSpec(a, Larger, Some(k), keepDims).value.data, a.data, o, row, a.shape[k], Product(a.shape[k + 1..]));
  }

  /** The fold of a line with `Larger` is its largest element. */
  lemma {:induction false} FoldLineMax(out: seq<real>, data: seq<real>, o: nat, row: nat, dim: nat, inner: nat)
    requires HoldsLineFold(out, data, Larger, o, row, dim, inner)
    ensures HoldsLineMax(out, data, o, row, dim, inner)
  {
    var base: nat := o * (dim * inner) + row;
    LineMaxOf(Line(data, base, inner, dim));
  }

  /**
   * The maximum over every axis is the largest of zero and the elements:
   * an array whose elements are all negative has maximum zero.
   */
  lemma {:induction false} ReduceMaxAll(a: Array, keepDims: bool)
    ensures ReduceSpec(a, Larger, None, keepDims).Ok?
    ensures var x := ReduceSpec(a, Larger, None, keepDims).value.data[0];
            x >= 0.0 && (forall j :: 0 <= j < |a.data| ==> x >= a.data[j]) && (x == 0.0 || x in a.data)
  {
    FoldLargerBounds(0.0, a.data);
  }

  /** The maximum over every axis of the one-element array `[-1]` is 0. */
  lemma ReduceMaxOfNegative(a: Array)
    requires a.shape == [1] && a.data == [-1.0]
    ensures ReduceSpec(a, Larger, None, false) == Ok(RawArray([1], [0.0]))
  {
    ReduceMaxAll(a, false);
  }

  /** A line of three elements folds as `f(f(x0, x1), x2)`. */
  lemma {:induction false} FoldLineOfThree(f: (real, real) -> real, line: seq<real>)
    requires |line| == 3
    ensures FoldLine(f, line) == f(f(line[0], line[1]), line[2])
  {
    var rest := line[1..];
    assert rest[..1] == [line[1]] && rest[..1][..0] == [];
    assert FoldLeft(f, line[0], rest[..1]) == f(FoldLeft(f, line[0], []), line[1]);
    assert FoldLeft(f, line[0], rest) == f(FoldLeft(f, line[0], rest[..1]), line[2]);
  }

  /** Summing the whole 2 x 3 x 2 array 0, 1, ..., 11, from zero, gives 66 in shape [1]. */
  lemma {:induction false} ReduceSumAllExample(a: Array)
    requires a.shape == [2, 3, 2] && a.data == [0.0, 1.0, 2.0, 3.0, 4.0, 5.0, 6.0, 7.0, 8.0, 9.0, 10.0, 11.0]
    ensures ReduceSpec(a, Plus, None, false) == Ok(RawArray([1], [66.0]))
  {
    assert forall i :: 0 <= i < |a.data| ==> a.data[i] == i as real;
    FoldCounting(a.data, 12);
    assert a.data[..12] == a.data;
  }

  /** Summing the first `k` elements of 0, 1, 2, ... gives k(k-1)/2. */
  lemma {:induction false} FoldCounting(xs: seq<real>, k: nat)
    requires k <= |xs|
    requires forall i :: 0 <= i < |xs| ==> xs[i] == i as real
    ensures FoldLeft(Plus, 0.0, xs[..k]) == (k * (k - 1) / 2) as real
  {
    if k > 0 {
      FoldCounting(xs, k - 1);
      FoldStep(Plus, 0.0, xs, k - 1);
      assert (k - 1) * (k - 2) / 2 + (k - 1) == k * (k - 1) / 2 by {
        assert k * (k - 1) == (k - 1) * (k - 2) + 2 * (k - 1);
      }
    }
  }

  /** Folding one more element of `xs` applies `f` to the fold so far and that element. */
  lemma {:induction false} FoldStep(f: (real, real) -> real, acc: real, xs: seq<real>, k: nat)
    requires k < |xs|
    ensures FoldLeft(f, acc, xs[..k + 1]) == f(FoldLeft(f, acc, xs[..k]), xs[k])
  {
    assert xs[..k + 1][..k] == xs[..k];
  }

  /** Summing the middle axis of the 2 x 3 x 2 array 0, 1, ..., 11. */
  lemma ReduceSumExample(a: Array)
    requires a.shape == [2, 3, 2] && a.data == [0.0, 1.0, 2.0, 3.0, 4.0, 5.0, 6.0, 7.0, 8.0, 9.0, 10.0, 11.0]
    ensures ReduceSpec(a, Plus, Some(1), false) == Ok(RawArray([2, 2], [6.0, 9.0, 24.0, 27.0]))
    ensures ReduceSpec(a, Plus, Some(1), true) == Ok(RawArray([2, 1, 2], [6.0, 9.0, 24.0, 27.0]))
  {
    assert a.shape[..1] == [2] && a.shape[2..] == [2];
    assert Product([2]) == 2 * Product([]) == 2;
    AxisLayout(a.shape, 1);
    SumLinesExample(a.data);
    assert a.shape[..1] + a.shape[2..] == [2, 2];
    assert a.shape[1 := 1] == [2, 1, 2];
  }

  /** The four lines of the middle axis of 0, 1, ..., 11 as 2 x 3 x 2 sum to 6, 9, 24 and 27. */
  lemma SumLinesExample(data: seq<real>)
    requires data == [0.0, 1.0, 2.0, 3.0, 4.0, 5.0, 6.0, 7.0, 8.0, 9.0, 10.0, 11.0]
    ensures AxisReduced(data, Plus, 2, 3, 2) == [6.0, 9.0, 24.0, 27.0]
  {
    var out := AxisReduced(data, Plus, 2, 3, 2);
    forall m | 0 <= m < 4
      ensures out[m] == [6.0, 9.0, 24.0, 27.0][m]
    {
      var base := LineBase(m, 3, 2);
      assert base == [0, 1, 6, 7][m];
      LineFits(m, 2, 3, 2);
      FoldLineOfThree(Plus, Line(data, base, 2, 3));
    }
  }
}
