/**
 * The in-place operations of the array engine: `map_assign`, the `*_assign`
 * arithmetic, `neg_assign`, `transpose_assign` and writing one element
 * through `index_mut`.
 *
 * An `Array` value that the engine updates in place is the class `MutArray`,
 * whose `shape` and `data` fields the methods reassign. Each operation leaves
 * the object holding exactly the array its value-returning counterpart
 * computes from the old contents; an operation that panics in the engine
 * returns a failure and leaves the object unchanged.
 */
module MutableArrays {
  import opened Outcomes
  import opened Layout
  import opened ArrayCore
  import opened Elementwise
  import opened ArrayOps

  class MutArray {
    var shape: seq<nat>
    var data: seq<real>

    /** The fields form a well-formed array. */
    ghost predicate Valid()
      reads this
    {
      0 !in shape && |data| == Product(shape)
    }

    /** The array the object currently holds. */
    ghost function Value(): Array
      reads this
      requires Valid()
    {
      RawArray(shape, data)
    }

    constructor (a: Array)
      ensures Valid() && Value() == a
    {
      shape := a.shape;
      data := a.data;
    }

    /** `map_assign`: replaces every element `x` by `g(x)`, first to last. */
    method MapAssign(g: real -> real)
      requires Valid()
      modifies this
      ensures Valid() && Value() == Mapped(old(Value()), g)
    {
      for i := 0 to |data|
        invariant shape == old(shape) && |data| == |old(data)|
        invariant forall k :: 0 <= k < i ==> data[k] == g(old(data)[k])
        invariant forall k :: i <= k < |data| ==> data[k] == old(data)[k]
      {
        data := data[i := g(data[i])];
      }
    }

    /** `neg_assign`: negates every element. */
    method NegAssign()
      requires Valid()
      modifies this
      ensures Valid() && Value() == Mapped(old(Value()), Negate)
    {
      MapAssign(Negate);
    }

    /** Replaces every element `x` by `f(x, s)`, first to last; the shape is unchanged. */
    method AssignComputeElementwiseWithScalar(s: real, f: (real, real) -> real)
      requires Valid()
      modifies this
      ensures Valid() && Value() == ScalarResult(old(Value()), s, f)
    {
      for i := 0 to |data|
        invariant shape == old(shape) && |data| == |old(data)|
        invariant forall k :: 0 <= k < i ==> data[k] == f(old(data)[k], s)
        invariant forall k :: i <= k < |data| ==> data[k] == old(data)[k]
      {
        data := data[i := f(data[i], s)];
      }
    }

    method AddAssignScalar(s: real)
      requires Valid()
      modifies this
      ensures Valid() && Value() == ScalarResult(old(Value()), s, Plus)
    {
      AssignComputeElementwiseWithScalar(s, Plus);
    }

    method SubAssignScalar(s: real)
      requires Valid()
      modifies this
      ensures Valid() && Value() == ScalarResult(old(Value()), s, Minus)
    {
      AssignComputeElementwiseWithScalar(s, Minus);
    }

    method MulAssignScalar(s: real)
      requires Valid()
      modifies this
      ensures Valid() && Value() == ScalarResult(old(Value()), s, Times)
    {
      AssignComputeElementwiseWithScalar(s, Times);
    }

    method DivAssignScalar(s: real)
      requires Valid()
      modifies this
      ensures Valid() && Value() == ScalarResult(old(Value()), s, Quotient)
    {
      AssignComputeElementwiseWithScalar(s, Quotient);
    }

    /**
     * Combines the held array with `other` under broadcasting into a fresh
     * buffer, then takes over that buffer and the broadcast shape; fails,
     * changing nothing, when the shapes do not broadcast.
     */
    method AssignComputeElementwiseWithOtherArray(other: Array, f: (real, real) -> real) returns (r: Outcome)
      requires Valid()
      modifies this
      ensures Valid()
      ensures r.Pass? <==> ElementwiseSpec(old(Value()), other, f).Ok?
      ensures r.Pass? ==> Value() == ElementwiseSpec(old(Value()), other, f).value
      ensures r.Fail? ==> r.error == ElementwiseSpec(old(Value()), other, f).error
      ensures r.Fail? ==> shape == old(shape) && data == old(data)
    {
      var res := ComputeElementwiseWithOtherArray(RawArray(shape, data), other, f);
      if res.Err? {
        return Fail(res.error);
      }
      data := res.value.data;
      shape := res.value.shape;
      r := Pass;
    }

    method AddAssign(other: Array) returns (r: Outcome)
      requires Valid()
      modifies this
      ensures Valid()
      ensures r.Pass? <==> ElementwiseSpec(old(Value()), other, Plus).Ok?
      ensures r.Pass? ==> Value() == ElementwiseSpec(old(Value()), other, Plus).value
      ensures r.Fail? ==> shape == old(shape) && data == old(data)
    {
      r := AssignComputeElementwiseWithOtherArray(other, Plus);
    }

    method SubAssign(other: Array) returns (r: Outcome)
      requires Valid()
      modifies this
      ensures Valid()
      ensures r.Pass? <==> ElementwiseSpec(old(Value()), other, Minus).Ok?
      ensures r.Pass? ==> Value() == ElementwiseSpec(old(Value()), other, Minus).value
      ensures r.Fail? ==> shape == old(shape) && data == old(data)
    {
      r := AssignComputeElementwiseWithOtherArray(other, Minus);
    }

    method MulAssign(other: Array) returns (r: Outcome)
      requires Valid()
      modifies this
      ensures Valid()
      ensures r.Pass? <==> ElementwiseSpec(old(Value()), other, Times).Ok?
      ensures r.Pass? ==> Value() == ElementwiseSpec(old(Value()), other, Times).value
      ensures r.Fail? ==> shape == old(shape) && data == old(data)
    {
      r := AssignComputeElementwiseWithOtherArray(other, Times);
    }

    method DivAssign(other: Array) returns (r: Outcome)
      requires Valid()
      modifies this
      ensures Valid()
      ensures r.Pass? <==> ElementwiseSpec(old(Value()), other, Quotient).Ok?
      ensures r.Pass? ==> Value() == ElementwiseSpec(old(Value()), other, Quotient).value
      ensures r.Fail? ==> shape == old(shape) && data == old(data)
    {
      r := AssignComputeElementwiseWithOtherArray(other, Quotient);
    }

    /**
     * `transpose_assign`: transposes every trailing matrix into a fresh
     * buffer and swaps the last two dimensions; an array of rank below two
     * cannot be transposed and is left unchanged.
     */
    method TransposeAssign() returns (r: Outcome)
      requires Valid()
      modifies this
      ensures Valid()
      ensures r.Pass? <==> |old(shape)| >= 2
      ensures r.Fail? ==> r.error == ShapeError && shape == old(shape) && data == old(data)
      ensures r.Pass? ==> Value() == TransposeSpec(old(Value())).value
    {
      if |shape| < 2 {
        return Fail(ShapeError);
      }
      var a: Array := RawArray(shape, data);
      var out := new real[Product(shape)](_ => 0.0);
      TransposeOnMemBuffer(a, out);
      data := out[..];
      shape := GetTransposedShape(shape).value;
      r := Pass;
    }

    /**
     * Writing through `index_mut`: fails, changing nothing, unless the index
     * has one in-range entry per dimension; otherwise replaces the element at
     * the index's row-major offset and nothing else.
     */
    method SetAt(index: seq<nat>, v: real) returns (r: Outcome)
      requires Valid()
      modifies this
      ensures Valid() && shape == old(shape)
      ensures r.Pass? <==> InBounds(index, old(shape))
      ensures r.Fail? ==> r.error == IndexOutOfBounds && data == old(data)
      ensures r.Pass? ==> RowMajor(index, shape) < |data| && data == old(data)[RowMajor(index, shape) := v]
    {
      var a: Array := RawArray(shape, data);
      var check := CheckIndex(a, index);
      if check.Fail? {
        return Fail(check.error);
      }
      var idx := ComputeDataIndex(a, index);
      data := data[idx := v];
      r := Pass;
    }
  }

  /**
   * After writing `v` at `written`, reading at `read` gives `v` when the two
   * indices are the same and the old element otherwise.
   */
  lemma ReadAfterWrite(a: Array, written: seq<nat>, read: seq<nat>, v: real)
    requires InBounds(written, a.shape) && InBounds(read, a.shape)
    ensures RowMajor(written, a.shape) < |a.data| && RowMajor(read, a.shape) < |a.data|
    ensures a.data[RowMajor(written, a.shape) := v][RowMajor(read, a.shape)] ==
            if read == written then v else a.data[RowMajor(read, a.shape)]
  {
    RowMajorBound(written, a.shape);
    RowMajorBound(read, a.shape);
    if RowMajor(written, a.shape) == RowMajor(read, a.shape) {
      RowMajorInjective(written, read, a.shape);
    }
  }

  /** Negating in place twice restores the object's array. */
  method NegAssignTwice(m: MutArray)
    requires m.Valid()
    modifies m
    ensures m.Valid() && m.Value() == old(m.Value())
  {
    m.NegAssign();
    m.NegAssign();
    NegTwice(old(m.Value()));
  }

  /** Transposing in place twice restores an array of rank two or more. */
  method TransposeAssignTwice(m: MutArray) returns (r: Outcome)
    requires m.Valid()
    modifies m
    ensures m.Valid()
    ensures r.Pass? <==> |old(m.shape)| >= 2
    ensures m.Value() == old(m.Value())
  {
    r := m.TransposeAssign();
    if r.Pass? {
      r := m.TransposeAssign();
      TransposeTwice(old(m.Value()));
    }
  }
}
