/**
 * Shape checks, the broadcasting rule on shapes, and the transposition of a
 * row-major matrix held in a slice of a buffer.
 *
 * The broadcasting helpers `GetShapeAfterBroadcast`,
 * `GetShapeAfterBroadcastMatmul` and `Compatible` follow the trailing-aligned
 * rule: shapes are aligned at their last dimension and the shorter one is
 * padded on the left with ones; aligned dimensions must be equal or one of
 * them must be 1; the result takes the larger of the two.
 */
module Utils {
  import opened Outcomes
  import opened Arith
  import opened Layout

  function Max(a: nat, b: nat): nat
  {
    if a >= b then a else b
  }

  /** Dimension `i` of `s` once padded on the left with ones up to rank `n`. */
  function PaddedDim(s: seq<nat>, n: nat, i: nat): nat
    requires |s| <= n && i < n
  {
    if i < n - |s| then 1 else s[i - (n - |s|)]
  }

  /** Pads `s` on the left with ones up to rank `n`. */
  function PadLeft(s: seq<nat>, n: nat): (p: seq<nat>)
    requires |s| <= n
    ensures |p| == n
  {
    seq(n - |s|, _ => 1) + s
  }

  /** Entry `i` of the padded shape is the padded dimension `i`. */
  lemma {:induction false} PadLeftAt(s: seq<nat>, n: nat, i: nat)
    requires |s| <= n && i < n
    ensures PadLeft(s, n)[i] == PaddedDim(s, n, i)
  {
  }

  /** Padding a shape to its own rank leaves it unchanged. */
  lemma {:induction false} PadLeftSame(s: seq<nat>)
    ensures PadLeft(s, |s|) == s
  {
    assert seq(0, _ => 1) + s == s;
  }

  lemma {:induction false} PaddedDimPositive(s: seq<nat>, n: nat, i: nat)
    requires 0 !in s && |s| <= n && i < n
    ensures PaddedDim(s, n, i) > 0
  {
    if i >= n - |s| {
      assert s[i - (n - |s|)] in s;
    }
  }

  /** Two dimensions can be broadcast together when they are equal or one of them is 1. */
  predicate DimsCompatible(d1: nat, d2: nat)
  {
    d1 == d2 || d1 == 1 || d2 == 1
  }

  /** The trailing-aligned broadcast relation between two shapes. */
  predicate Compatible(s1: seq<nat>, s2: seq<nat>)
  {
    var n := Max(|s1|, |s2|);
    forall i :: 0 <= i < n ==> DimsCompatible(PaddedDim(s1, n, i), PaddedDim(s2, n, i))
  }

  /** `s` can be replicated to `r`: after padding, each dimension equals the target or is 1. */
  predicate BroadcastsTo(s: seq<nat>, r: seq<nat>)
  {
    |s| <= |r| &&
    forall i :: 0 <= i < |r| ==> PaddedDim(s, |r|, i) == r[i] || PaddedDim(s, |r|, i) == 1
  }

  /** The result shape of an elementwise operation on arrays of shapes `s1` and `s2`. */
  function GetShapeAfterBroadcast(s1: seq<nat>, s2: seq<nat>): (r: Result<seq<nat>>)
    ensures r.Ok? <==> Compatible(s1, s2)
    ensures r.Err? ==> r.error == ShapeError
    ensures r.Ok? ==> |r.value| == Max(|s1|, |s2|)
  {
    if !Compatible(s1, s2) then Err(ShapeError)
    else
      var n := Max(|s1|, |s2|);
      Ok(seq(n, i requires 0 <= i < n => Max(PaddedDim(s1, n, i), PaddedDim(s2, n, i))))
  }

  /** Both operands can be replicated to the broadcast shape. */
  lemma {:induction false} BroadcastCovers(s1: seq<nat>, s2: seq<nat>)
    requires 0 !in s1 && 0 !in s2 && Compatible(s1, s2)
    ensures BroadcastsTo(s1, GetShapeAfterBroadcast(s1, s2).value)
    ensures BroadcastsTo(s2, GetShapeAfterBroadcast(s1, s2).value)
  {
    var n := Max(|s1|, |s2|);
    var r := GetShapeAfterBroadcast(s1, s2).value;
    forall i | 0 <= i < n
      ensures PaddedDim(s1, n, i) == r[i] || PaddedDim(s1, n, i) == 1
      ensures PaddedDim(s2, n, i) == r[i] || PaddedDim(s2, n, i) == 1
    {
      PaddedDimPositive(s1, n, i);
      PaddedDimPositive(s2, n, i);
      assert DimsCompatible(PaddedDim(s1, n, i), PaddedDim(s2, n, i));
    }
  }

  /** Broadcasting is symmetric in its two operands. */
  lemma {:induction false} BroadcastSymmetric(s1: seq<nat>, s2: seq<nat>)
    ensures GetShapeAfterBroadcast(s1, s2) == GetShapeAfterBroadcast(s2, s1)
  {
    var n := Max(|s1|, |s2|);
    assert Max(|s2|, |s1|) == n;
    if Compatible(s1, s2) {
      assert Compatible(s2, s1) by {
        forall i | 0 <= i < n
          ensures DimsCompatible(PaddedDim(s2, n, i), PaddedDim(s1, n, i))
        {
          assert DimsCompatible(PaddedDim(s1, n, i), PaddedDim(s2, n, i));
        }
      }
      var r1, r2 := GetShapeAfterBroadcast(s1, s2).value, GetShapeAfterBroadcast(s2, s1).value;
      assert forall i :: 0 <= i < n ==> r1[i] == r2[i];
      assert r1 == r2;
    } else {
      assert !Compatible(s2, s1) by {
        var i :| 0 <= i < n && !DimsCompatible(PaddedDim(s1, n, i), PaddedDim(s2, n, i));
        assert !DimsCompatible(PaddedDim(s2, n, i), PaddedDim(s1, n, i));
      }
    }
  }

  /** Broadcasting two shapes without a zero dimension gives a shape without a zero dimension. */
  lemma {:induction false} BroadcastPositive(s1: seq<nat>, s2: seq<nat>)
    requires 0 !in s1 && 0 !in s2 && Compatible(s1, s2)
    ensures 0 !in GetShapeAfterBroadcast(s1, s2).value
  {
    var n := Max(|s1|, |s2|);
    var r := GetShapeAfterBroadcast(s1, s2).value;
    forall i | 0 <= i < n
      ensures r[i] > 0
    {
      PaddedDimPositive(s1, n, i);
    }
  }

  /** A shape of the same rank whose every dimension is the other's or 1 broadcasts with it to the other shape. */
  lemma {:induction false} BroadcastOnto(r: seq<nat>, s: seq<nat>)
    requires 0 !in s && |r| == |s|
    requires forall i :: 0 <= i < |s| ==> r[i] == s[i] || r[i] == 1
    ensures GetShapeAfterBroadcast(r, s) == Ok(s)
  {
    var n := |s|;
    assert Max(|r|, |s|) == n;
    forall i | 0 <= i < n
      ensures PaddedDim(r, n, i) == r[i] && PaddedDim(s, n, i) == s[i]
      ensures DimsCompatible(r[i], s[i]) && Max(r[i], s[i]) == s[i]
    {
      assert s[i] in s;
    }
    assert Compatible(r, s);
    var b := GetShapeAfterBroadcast(r, s).value;
    assert forall i :: 0 <= i < n ==> b[i] == s[i];
    assert b == s;
  }

  /**
   * The result shape of a (batched) matrix product: the broadcast of the two
   * batch prefixes followed by the rows of the left and the columns of the
   * right matrix. Both operands need at least two dimensions.
   */
  function GetShapeAfterBroadcastMatmul(s1: seq<nat>, s2: seq<nat>): (r: Result<seq<nat>>)
    ensures r.Ok? <==> |s1| >= 2 && |s2| >= 2 && Compatible(s1[..|s1| - 2], s2[..|s2| - 2])
    ensures r.Ok? ==> |r.value| == Max(|s1|, |s2|)
    ensures r.Ok? ==> r.value[|r.value| - 2] == s1[|s1| - 2] && r.value[|r.value| - 1] == s2[|s2| - 1]
    ensures r.Ok? ==> r.value[..|r.value| - 2] == GetShapeAfterBroadcast(s1[..|s1| - 2], s2[..|s2| - 2]).value
  {
    if |s1| < 2 || |s2| < 2 then Err(ShapeError)
    else
      var batch :- GetShapeAfterBroadcast(s1[..|s1| - 2], s2[..|s2| - 2]);
      Ok(batch + [s1[|s1| - 2], s2[|s2| - 1]])
  }

  /** Fails exactly when some dimension is zero; the empty shape passes. */
  function CheckShapePositive(shape: seq<nat>): (r: Outcome)
    ensures r.Pass? <==> 0 !in shape
    ensures r.Fail? ==> r.error == ShapeError
  {
    if |shape| == 0 then Pass
    else if shape[0] == 0 then Fail(ShapeError)
    else
      assert shape == [shape[0]] + shape[1..];
      CheckShapePositive(shape[1..])
  }

  /** Fails unless the two shapes broadcast together. */
  function CheckShapesBroadcast(s1: seq<nat>, s2: seq<nat>): (r: Outcome)
    ensures r.Pass? <==> Compatible(s1, s2)
    ensures r.Fail? ==> r.error == ShapeError
  {
    if GetShapeAfterBroadcast(s1, s2).Ok? then Pass else Fail(ShapeError)
  }

  /** Fails unless the two shapes are identical. */
  function CheckShapesTheSame(s1: seq<nat>, s2: seq<nat>): (r: Outcome)
    ensures r.Pass? <==> s1 == s2
    ensures r.Fail? ==> r.error == ShapeError
  {
    if s1 == s2 then Pass else Fail(ShapeError)
  }

  /**
   * The shape check for two stacks of matrices, as written: the ranks must be
   * equal and the batch dimensions identical. The comparison of the left
   * operand's columns with the right operand's rows is guarded by a test that
   * only holds for ranks below two, where indexing the shapes already fails.
   */
  function CheckShapesMatmulArrays(s1: seq<nat>, s2: seq<nat>): (r: Outcome)
    ensures r.Pass? <==> |s1| == |s2| >= 2 && s1[..|s1| - 2] == s2[..|s2| - 2]
  {
    if |s1| != |s2| || |s2| < 2 then Fail(ShapeError)
    else if exists i :: 0 <= i < |s1| - 2 && s1[i] != s2[i] then Fail(ShapeError)
    else
      assert s1[..|s1| - 2] == s2[..|s2| - 2];
      Pass
  }

  /** The matrix check never compares the inner dimensions: a 2x3 and a 4x5 matrix pass it. */
  lemma {:induction false} MatmulCheckIgnoresInnerDims()
    ensures CheckShapesMatmulArrays([2, 3], [4, 5]) == Pass
  {
  }

  /**
   * The transpose of a `rows x cols` row-major matrix: output offset `k`
   * holds input row `k % rows`, column `k / rows`.
   */
  function Transposed2D(data: seq<real>, rows: nat, cols: nat): (t: seq<real>)
    requires |data| == rows * cols
    ensures |t| == rows * cols
  {
    seq(rows * cols, k requires 0 <= k < rows * cols => data[TransposedSource(k, rows, cols)])
  }

  /** The input offset read for output offset `k` of the transpose. */
  function TransposedSource(k: nat, rows: nat, cols: nat): (q: nat)
    requires k < rows * cols
    ensures q < rows * cols
  {
    TransposedIndex(k, rows, cols);
    (k % rows) * cols + k / rows
  }

  lemma {:induction false} TransposedIndex(k: nat, rows: nat, cols: nat)
    requires k < rows * cols
    ensures rows > 0 && k % rows < rows && k / rows < cols
    ensures (k % rows) * cols + k / rows < rows * cols
  {
    assert rows > 0;
    DivMod(k, rows);
    DivBelow(k, rows, cols);
    BlockIndex(k % rows, k / rows, cols, rows);
  }

  /** Row `i`, column `j` of the input is row `j`, column `i` of the transpose. */
  lemma {:induction false} Transposed2DAt(data: seq<real>, rows: nat, cols: nat, i: nat, j: nat)
    requires |data| == rows * cols && i < rows && j < cols
    ensures j * rows + i < rows * cols && i * cols + j < rows * cols
    ensures Transposed2D(data, rows, cols)[j * rows + i] == data[i * cols + j]
  {
    BlockIndex(j, i, rows, cols);
    BlockIndex(i, j, cols, rows);
    DivModOf(j, i, rows);
  }

  /** Transposing twice gives the matrix back. */
  lemma {:induction false} Transposed2DTwice(data: seq<real>, rows: nat, cols: nat)
    requires |data| == rows * cols
    ensures Transposed2D(Transposed2D(data, rows, cols), cols, rows) == data
  {
    var t := Transposed2D(data, rows, cols);
    var u := Transposed2D(t, cols, rows);
    forall k | 0 <= k < rows * cols
      ensures u[k] == data[k]
    {
      TransposedIndex(k, cols, rows);
      var i, j := k / cols, k % cols;
      DivMod(k, cols);
      Transposed2DAt(data, rows, cols, i, j);
      assert u[k] == t[j * rows + i];
    }
  }

  /**
   * Writes the transpose of the `rows x cols` matrix `data` into the slice
   * `out[lo..hi]`. Fails, changing nothing, when the slice or the matrix does
   * not hold `rows * cols` elements.
   */
  method Transpose2DMatrixSlices(data: seq<real>, rows: nat, cols: nat, out: array<real>, lo: nat, hi: nat)
    returns (r: Outcome)
    requires lo <= hi <= out.Length
    modifies out
    ensures r.Pass? <==> hi - lo == cols * rows && |data| == rows * cols
    ensures r.Pass? ==> out[lo..hi] == Transposed2D(data, rows, cols)
    ensures r.Pass? ==> out[..lo] == old(out[..lo]) && out[hi..] == old(out[hi..])
    ensures r.Fail? ==> out[..] == old(out[..])
  {
    if hi - lo != cols * rows || |data| != rows * cols {
      return Fail(ShapeError);
    }
    ghost var t := Transposed2D(data, rows, cols);
    for i := 0 to rows
      invariant forall k :: 0 <= k < lo || hi <= k < out.Length ==> out[k] == old(out[k])
      invariant forall k :: 0 <= k < rows * cols && k % rows < i ==> out[lo + k] == t[k]
    {
      TransposeRow(data, rows, cols, out, lo, hi, i);
    }
    assert forall k :: 0 <= k < rows * cols ==> out[lo + k] == t[k] by {
      forall k | 0 <= k < rows * cols
        ensures out[lo + k] == t[k]
      {
        TransposedIndex(k, rows, cols);
      }
    }
    assert out[lo..hi] == t;
    assert out[..lo] == old(out[..lo]);
    assert out[hi..] == old(out[hi..]);
    return Pass;
  }

  /**
   * One pass of the outer loop of `Transpose2DMatrixSlices`: row `i` of the
   * matrix becomes column `i` of the transpose, which holds the output
   * offsets `k` with `k % rows == i`; every other element is left alone.
   */
  method TransposeRow(data: seq<real>, rows: nat, cols: nat, out: array<real>, lo: nat, hi: nat, i: nat)
    requires |data| == rows * cols && hi - lo == rows * cols && lo <= hi <= out.Length && i < rows
    modifies out
    ensures forall k :: 0 <= k < lo || hi <= k < out.Length ==> out[k] == old(out[k])
    ensures forall k :: 0 <= k < rows * cols && k % rows != i ==> out[lo + k] == old(out[lo + k])
    ensures forall k :: 0 <= k < rows * cols && k % rows == i ==> out[lo + k] == Transposed2D(data, rows, cols)[k]
  {
    ghost var t := Transposed2D(data, rows, cols);
    for j := 0 to cols
      invariant forall k :: 0 <= k < lo || hi <= k < out.Length ==> out[k] == old(out[k])
      invariant forall k :: 0 <= k < rows * cols && (k % rows != i || k / rows >= j) ==> out[lo + k] == old(out[lo + k])
      invariant forall k :: 0 <= k < rows * cols && k % rows == i && k / rows < j ==> out[lo + k] == t[k]
    {
      var p: nat := j * rows + i;
      Transposed2DAt(data, rows, cols, i, j);
      DivModOf(j, i, rows);
      out[lo + p] := data[i * cols + j];
      forall k | 0 <= k < rows * cols && k % rows == i && k / rows == j
        ensures k == p
      {
        DivMod(k, rows);
      }
    }
    forall k | 0 <= k < rows * cols && k % rows == i
      ensures k / rows < cols
    {
      TransposedIndex(k, rows, cols);
    }
  }
}
