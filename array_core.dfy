/**
 * The n-dimensional array value: a shape and a row-major buffer of elements,
 * with its constructors and element access.
 *
 * Elements are modelled as real numbers. An array never has a zero dimension
 * and its buffer always holds as many elements as the product of its shape;
 * the subset type `Array` carries that invariant.
 */
module ArrayCore {
  import opened Outcomes
  import opened Layout
  import opened Utils

  datatype RawArray = RawArray(shape: seq<nat>, data: seq<real>)

  /** A well-formed array: no zero dimension, and one buffer element per coordinate. */
  type Array = a: RawArray | 0 !in a.shape && |a.data| == Product(a.shape)
    witness RawArray([], [0.0])

  /** An array of the given shape filled with `init`; fails when a dimension is zero. */
  function New(init: real, shape: seq<nat>): (r: Result<Array>)
    ensures r.Ok? <==> 0 !in shape
    ensures r.Err? ==> r.error == ShapeError
    ensures r.Ok? ==> r.value.shape == shape && |r.value.data| == Product(shape)
    ensures r.Ok? ==> forall k :: 0 <= k < |r.value.data| ==> r.value.data[k] == init
  {
    var check := CheckShapePositive(shape);
    if check.IsFailure() then check.PropagateFailure()
    else Ok(RawArray(shape, seq(Product(shape), _ => init)))
  }

  /**
   * An array over an existing buffer; fails when a dimension is zero or the
   * buffer length differs from the product of the shape.
   */
  function FromVec(data: seq<real>, shape: seq<nat>): (r: Result<Array>)
    ensures r.Ok? <==> 0 !in shape && |data| == Product(shape)
    ensures r.Err? ==> r.error == ShapeError
    ensures r.Ok? ==> r.value.shape == shape && r.value.data == data
  {
    var check := CheckShapePositive(shape);
    if check.IsFailure() then check.PropagateFailure()
    else if |data| != Product(shape) then Err(ShapeError)
    else Ok(RawArray(shape, data))
  }

  /** Fails unless `index` has one in-range entry per dimension. */
  function CheckIndex(a: Array, index: seq<nat>): (r: Outcome)
    ensures r.Pass? <==> InBounds(index, a.shape)
    ensures r.Fail? ==> r.error == IndexOutOfBounds
  {
    if |index| != |a.shape| then Fail(IndexOutOfBounds)
    else if exists i :: 0 <= i < |a.shape| && index[i] >= a.shape[i] then Fail(IndexOutOfBounds)
    else Pass
  }

  /**
   * The buffer offset of an element index, accumulated from the last
   * dimension to the first; in range for every in-bounds index.
   */
  method ComputeDataIndex(a: Array, index: seq<nat>) returns (idx: nat)
    requires |index| == |a.shape|
    ensures idx == RowMajor(index, a.shape)
    ensures InBounds(index, a.shape) ==> idx < |a.data|
  {
    idx := 0;
    var prod := 1;
    var i := |a.shape|;
    while i > 0
      invariant 0 <= i <= |a.shape|
      invariant idx == RowMajor(index[i..], a.shape[i..])
      invariant prod == Product(a.shape[i..])
    {
      i := i - 1;
      assert index[i..][1..] == index[i + 1..];
      assert a.shape[i..][1..] == a.shape[i + 1..];
      idx := idx + index[i] * prod;
      prod := prod * a.shape[i];
    }
    assert index[0..] == index && a.shape[0..] == a.shape;
    if InBounds(index, a.shape) {
      RowMajorBound(index, a.shape);
    }
  }

  /**
   * Reads the element at `index`: fails when the index has the wrong length
   * or an entry out of range, and otherwise returns the element stored at the
   * index's row-major offset.
   */
  method Get(a: Array, index: seq<nat>) returns (r: Result<real>)
    ensures r.Ok? <==> InBounds(index, a.shape)
    ensures r.Err? ==> r.error == IndexOutOfBounds
    ensures r.Ok? ==> RowMajor(index, a.shape) < |a.data| && r.value == a.data[RowMajor(index, a.shape)]
  {
    var check := CheckIndex(a, index);
    if check.Fail? {
      return Err(check.error);
    }
    var idx := ComputeDataIndex(a, index);
    return Ok(a.data[idx]);
  }
}
