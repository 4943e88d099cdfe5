/**
 * The broadcast iterator: given two arrays and a number `t` of trailing
 * dimensions that are kept whole, it yields, once per coordinate of the
 * broadcast of the two remaining (leading) shapes and in row-major order, the
 * pair of contiguous data slices the two arrays contribute at that coordinate.
 * A leading dimension of size 1 in one operand does not advance that
 * operand's slice, which replicates it without copying.
 */
module Broadcast {
  import opened Outcomes
  import opened Arith
  import opened Layout
  import opened Utils
  import opened ArrayCore

  /**
   * The iterator can be built: both shapes have `t` trailing dimensions and
   * the leading parts broadcast together.
   */
  predicate ValidTrailing(s1: seq<nat>, s2: seq<nat>, t: nat)
  {
    t <= |s1| && t <= |s2| && Compatible(s1[..|s1| - t], s2[..|s2| - t])
  }

  /**
   * The checks made when an iterator is built, in order: `t` must not exceed
   * the larger rank, must not exceed either rank (the leading part
   * `shape[..|shape| - t]` must exist), and the leading parts must broadcast.
   */
  function CheckTrailingDims(s1: seq<nat>, s2: seq<nat>, t: nat): (r: Outcome)
    ensures r.Pass? <==> ValidTrailing(s1, s2, t)
    ensures r.Fail? ==> r.error == ShapeError
  {
    if Max(|s1|, |s2|) < t then Fail(ShapeError)
    else if |s1| < t || |s2| < t then Fail(ShapeError)
    else CheckShapesBroadcast(s1[..|s1| - t], s2[..|s2| - t])
  }

  /** The leading parts of both shapes, the shorter padded on the left with ones. */
  function GetPaddedBroadcastShapes(s1: seq<nat>, s2: seq<nat>, t: nat): (r: (seq<nat>, seq<nat>))
    requires t <= |s1| && t <= |s2|
    ensures r.0 == PadLeft(s1[..|s1| - t], Max(|s1|, |s2|) - t)
    ensures r.1 == PadLeft(s2[..|s2| - t], Max(|s1|, |s2|) - t)
  {
    var trunc1, trunc2 := s1[..|s1| - t], s2[..|s2| - t];
    if |s1| == |s2| then
      PadLeftSame(trunc1);
      PadLeftSame(trunc2);
      (trunc1, trunc2)
    else if |s1| > |s2| then
      PadLeftSame(trunc1);
      (trunc1, seq(|s1| - |s2|, _ => 1) + trunc2)
    else
      PadLeftSame(trunc2);
      (seq(|s2| - |s1|, _ => 1) + trunc1, trunc2)
  }

  /** The length of one slice: the number of elements of the `t` trailing dimensions. */
  function GetSliceLen(s: seq<nat>, t: nat): (len: nat)
    requires t <= |s|
    ensures len == Product(s[|s| - t..])
  {
    if t == 0 then
      assert s[|s|..] == [];
      1
    else Product(s[|s| - t..])
  }

  /** The broadcast of the leading parts: the shape the iterator runs over. */
  function ResultShape(s1: seq<nat>, s2: seq<nat>, t: nat): (r: seq<nat>)
    requires ValidTrailing(s1, s2, t)
    ensures |r| == Max(|s1|, |s2|) - t
  {
    var p1, p2 := s1[..|s1| - t], s2[..|s2| - t];
    assert Max(|p1|, |p2|) == Max(|s1|, |s2|) - t;
    GetShapeAfterBroadcast(p1, p2).value
  }

  /** A coordinate with every entry past its dimension replaced by 0. */
  function Clamp(c: seq<nat>, s: seq<nat>): (r: seq<nat>)
    requires |c| == |s|
    ensures |r| == |s|
  {
    seq(|c|, i requires 0 <= i < |c| => if c[i] < s[i] then c[i] else 0)
  }

  /**
   * The offset of the slice an operand with padded leading shape `s` and
   * slice length `len` contributes at result coordinate `c`: coordinates
   * beyond a dimension of the operand (its size-1 dimensions) count as 0.
   */
  function SliceIndex(c: seq<nat>, s: seq<nat>, len: nat): nat
    requires |c| == |s|
  {
    len * RowMajor(Clamp(c, s), s)
  }

  /**
   * The slice an operand contributes at result coordinate `c` (of rank `n`)
   * when `t` trailing dimensions are kept whole.
   */
  function OperandSlice(a: Array, t: nat, c: seq<nat>): (slice: seq<real>)
    requires t <= |a.shape| && |a.shape| - t <= |c|
    ensures |slice| == GetSliceLen(a.shape, t)
  {
    var s := PadLeft(a.shape[..|a.shape| - t], |c|);
    var len := GetSliceLen(a.shape, t);
    var o := SliceIndex(c, s, len);
    SliceFits(a.shape, t, |c|, c);
    a.data[o..o + len]
  }

  /** The pair of slices yielded at step `k`, in row-major order of the result shape. */
  function SlicePair(a1: Array, a2: Array, t: nat, k: nat): (p: (seq<real>, seq<real>))
    requires ValidTrailing(a1.shape, a2.shape, t)
    requires k < Product(ResultShape(a1.shape, a2.shape, t))
    ensures |p.0| == GetSliceLen(a1.shape, t) && |p.1| == GetSliceLen(a2.shape, t)
  {
    var r := ResultShape(a1.shape, a2.shape, t);
    ResultShapePositive(a1.shape, a2.shape, t);
    var c := Unrank(k, r);
    (OperandSlice(a1, t, c), OperandSlice(a2, t, c))
  }

  lemma {:induction false} ResultShapePositive(s1: seq<nat>, s2: seq<nat>, t: nat)
    requires 0 !in s1 && 0 !in s2 && ValidTrailing(s1, s2, t)
    ensures 0 !in ResultShape(s1, s2, t)
    ensures |ResultShape(s1, s2, t)| == Max(|s1|, |s2|) - t
  {
    var p1, p2 := s1[..|s1| - t], s2[..|s2| - t];
    assert forall i :: 0 <= i < |p1| ==> p1[i] == s1[i];
    assert forall i :: 0 <= i < |p2| ==> p2[i] == s2[i];
    BroadcastPositive(p1, p2);
  }

  /** Each result dimension is the larger of the two padded leading dimensions. */
  lemma {:induction false} ResultShapeAt(s1: seq<nat>, s2: seq<nat>, t: nat)
    requires ValidTrailing(s1, s2, t)
    ensures var r := ResultShape(s1, s2, t);
      var p := GetPaddedBroadcastShapes(s1, s2, t);
      |r| == |p.0| == |p.1| == Max(|s1|, |s2|) - t &&
      forall i :: 0 <= i < |r| ==> r[i] == Max(p.0[i], p.1[i])
  {
    var p1, p2 := s1[..|s1| - t], s2[..|s2| - t];
    var n := Max(|s1|, |s2|) - t;
    assert Max(|p1|, |p2|) == n;
    forall i | 0 <= i < n
      ensures PadLeft(p1, n)[i] == PaddedDim(p1, n, i) && PadLeft(p2, n)[i] == PaddedDim(p2, n, i)
    {
      PadLeftAt(p1, n, i);
      PadLeftAt(p2, n, i);
    }
  }

  /**
   * The pair at step `k` read at the coordinate `c` reached after `k` steps:
   * the slices of both buffers at the slice offsets of `c`.
   */
  lemma {:induction false} SlicePairAt(a1: Array, a2: Array, t: nat, k: nat, c: seq<nat>,
                                       s1: seq<nat>, s2: seq<nat>, len1: nat, len2: nat)
    requires ValidTrailing(a1.shape, a2.shape, t)
    requires 0 !in ResultShape(a1.shape, a2.shape, t)
    requires k < Product(ResultShape(a1.shape, a2.shape, t))
    requires InBounds(c, ResultShape(a1.shape, a2.shape, t))
    requires RowMajor(c, ResultShape(a1.shape, a2.shape, t)) == k
    requires (s1, s2) == GetPaddedBroadcastShapes(a1.shape, a2.shape, t)
    requires len1 == GetSliceLen(a1.shape, t) && len2 == GetSliceLen(a2.shape, t)
    ensures SliceIndex(c, s1, len1) + len1 <= |a1.data|
    ensures SliceIndex(c, s2, len2) + len2 <= |a2.data|
    ensures SlicePair(a1, a2, t, k) == (a1.data[SliceIndex(c, s1, len1)..SliceIndex(c, s1, len1) + len1],
                                       a2.data[SliceIndex(c, s2, len2)..SliceIndex(c, s2, len2) + len2])
  {
    var r := ResultShape(a1.shape, a2.shape, t);
    ResultShapePositive(a1.shape, a2.shape, t);
    assert |c| == |r| == Max(|a1.shape|, |a2.shape|) - t;
    UnrankRowMajor(c, r);
    OperandSliceAt(a1, t, c, s1, len1);
    OperandSliceAt(a2, t, c, s2, len2);
  }

  /** The slice of one operand at coordinate `c`, read at its slice offset. */
  lemma {:induction false} OperandSliceAt(a: Array, t: nat, c: seq<nat>, s: seq<nat>, len: nat)
    requires t <= |a.shape| && |a.shape| - t <= |c|
    requires s == PadLeft(a.shape[..|a.shape| - t], |c|) && len == GetSliceLen(a.shape, t)
    ensures SliceIndex(c, s, len) + len <= |a.data|
    ensures OperandSlice(a, t, c) == a.data[SliceIndex(c, s, len)..SliceIndex(c, s, len) + len]
  {
    SliceFits(a.shape, t, |c|, c);
  }

  /** With no leading dimension there is a single pair: the two whole buffers. */
  lemma {:induction false} SlicePairWhole(a1: Array, a2: Array, t: nat, r: seq<nat>, k: nat)
    requires ValidTrailing(a1.shape, a2.shape, t)
    requires r == ResultShape(a1.shape, a2.shape, t) && r == [] && k == 0
    ensures k < Product(r) && SlicePair(a1, a2, t, k) == (a1.data, a2.data)
  {
    NoLeadingDims(a1.shape, a2.shape, t);
    var c := Unrank(k, r);
    assert SlicePair(a1, a2, t, k) == (OperandSlice(a1, t, c), OperandSlice(a2, t, c));
    OperandSliceWhole(a1, t, c);
    OperandSliceWhole(a2, t, c);
  }

  /** The result shape is empty exactly when every dimension of both operands is trailing. */
  lemma {:induction false} NoLeadingDims(s1: seq<nat>, s2: seq<nat>, t: nat)
    requires ValidTrailing(s1, s2, t) && ResultShape(s1, s2, t) == []
    ensures t == |s1| && t == |s2|
  {
    ResultShapeAt(s1, s2, t);
  }

  /**
   * With no leading dimension the slice is the whole buffer, whatever the
   * result coordinate: every padded dimension is 1, so the offset is 0.
   */
  lemma {:induction false} OperandSliceWhole(a: Array, t: nat, c: seq<nat>)
    requires t == |a.shape|
    ensures OperandSlice(a, t, c) == a.data
  {
    var s := PadLeft(a.shape[..0], |c|);
    assert Clamp(c, s) == seq(|c|, _ => 0);
    RowMajorZeros(s);
    assert a.shape[|a.shape| - t..] == a.shape;
    assert SliceIndex(c, s, GetSliceLen(a.shape, t)) == 0;
  }

  /** A shape built as the pointwise larger padded dimension is the result shape. */
  lemma {:induction false} ResultShapeIs(s1: seq<nat>, s2: seq<nat>, t: nat, result: seq<nat>)
    requires ValidTrailing(s1, s2, t)
    requires var p := GetPaddedBroadcastShapes(s1, s2, t);
      |result| == Max(|s1|, |s2|) - t &&
      forall j :: 0 <= j < |result| ==> result[j] == Max(p.0[j], p.1[j])
    ensures result == ResultShape(s1, s2, t)
  {
    ResultShapeAt(s1, s2, t);
  }

  lemma {:induction false} ProductOnes(n: nat)
    ensures Product(seq(n, _ => 1)) == 1
  {
    if n > 0 {
      assert seq(n, _ => 1)[1..] == seq(n - 1, _ => 1);
      ProductOnes(n - 1);
    }
  }

  /** Padding with ones does not change the number of elements. */
  lemma {:induction false} ProductPadLeft(s: seq<nat>, n: nat)
    requires |s| <= n
    ensures Product(PadLeft(s, n)) == Product(s)
  {
    var ones := seq(n - |s|, _ => 1);
    assert PadLeft(s, n) == ones + s;
    ProductOnes(n - |s|);
    ProductAppend(ones, s);
    assert Product(ones + s) == 1 * Product(s);
  }

  /**
   * A slice of an operand of shape `shape` lies inside its buffer, whatever
   * the result coordinate: `SliceIndex + len <= Product(shape)`.
   */
  lemma {:induction false} SliceFits(shape: seq<nat>, t: nat, n: nat, c: seq<nat>)
    requires 0 !in shape && t <= |shape| && |shape| - t <= n && |c| == n
    ensures var s := PadLeft(shape[..|shape| - t], n);
      SliceIndex(c, s, GetSliceLen(shape, t)) + GetSliceLen(shape, t) <= Product(shape)
  {
    var trunc := shape[..|shape| - t];
    var s := PadLeft(trunc, n);
    var len := GetSliceLen(shape, t);
    var cl := Clamp(c, s);
    forall i | 0 <= i < n
      ensures cl[i] < s[i]
    {
      assert 0 !in trunc by {
        assert forall j :: 0 <= j < |trunc| ==> trunc[j] == shape[j];
      }
      PadLeftAt(trunc, n, i);
      PaddedDimPositive(trunc, n, i);
    }
    RowMajorBound(cl, s);
    ProductPadLeft(trunc, n);
    assert trunc + shape[|shape| - t..] == shape;
    ProductAppend(trunc, shape[|shape| - t..]);
    MulLeft(RowMajor(cl, s) + 1, Product(s), len);
    MulDistrib(RowMajor(cl, s), 1, len);
  }

  /**
   * The offset, in the buffer of an operand of shape `s`, of the element that
   * broadcasting pairs with result coordinate `c`: the shape is padded on the
   * left with ones up to the rank of `c`, and a coordinate beyond a dimension
   * (one of size 1, which is replicated) reads index 0.
   */
  function SourceIndex(c: seq<nat>, s: seq<nat>): (o: nat)
    requires 0 !in s && |s| <= |c|
    ensures o < Product(s)
  {
    var p := PadLeft(s, |c|);
    ClampInBounds(c, s, p);
    RowMajorBound(Clamp(c, p), p);
    ProductPadLeft(s, |c|);
    RowMajor(Clamp(c, p), p)
  }

  /** A clamped coordinate lies inside the padded shape. */
  lemma {:induction false} ClampInBounds(c: seq<nat>, s: seq<nat>, p: seq<nat>)
    requires 0 !in s && |s| <= |c| && p == PadLeft(s, |c|)
    ensures InBounds(Clamp(c, p), p)
  {
    forall i | 0 <= i < |p|
      ensures Clamp(c, p)[i] < p[i]
    {
      PadLeftAt(s, |c|, i);
      PaddedDimPositive(s, |c|, i);
    }
  }

  /**
   * A result coordinate split into its leading part `cl` and its part `ct`
   * inside the `t` kept dimensions: the element broadcasting maps it to is
   * element `RowMajor(ct, tail)` of the slice the operand contributes at `cl`.
   */
  lemma {:induction false} SourceIndexSplit(a: Array, t: nat, cl: seq<nat>, ct: seq<nat>)
    requires t <= |a.shape| && |a.shape| - t <= |cl|
    requires InBounds(ct, a.shape[|a.shape| - t..])
    ensures SourceIndex(cl + ct, a.shape) ==
      SliceIndex(cl, PadLeft(a.shape[..|a.shape| - t], |cl|), GetSliceLen(a.shape, t)) +
      RowMajor(ct, a.shape[|a.shape| - t..])
  {
    var lead, tail := a.shape[..|a.shape| - t], a.shape[|a.shape| - t..];
    var s := PadLeft(lead, |cl|);
    var x: nat, len: nat, y: nat := RowMajor(Clamp(cl, s), s), Product(tail), RowMajor(ct, tail);
    assert SourceIndex(cl + ct, a.shape) == x * len + y by {
      assert a.shape == lead + tail;
      PadSplit(a.shape, lead, tail, |cl|);
      ClampSplit(cl, ct, s, tail);
      RowMajorAppend(Clamp(cl, s), ct, s, tail);
    }
    assert SliceIndex(cl, s, GetSliceLen(a.shape, t)) == len * x;
  }

  /** Padding a whole shape is padding its leading part, followed by the trailing part. */
  lemma {:induction false} PadSplit(shape: seq<nat>, lead: seq<nat>, tail: seq<nat>, n: nat)
    requires shape == lead + tail && |lead| <= n
    ensures PadLeft(shape, n + |tail|) == PadLeft(lead, n) + tail
  {
    var ones := seq(n - |lead|, _ => 1);
    assert PadLeft(shape, n + |tail|) == ones + (lead + tail);
    assert PadLeft(lead, n) + tail == (ones + lead) + tail;
  }

  /** Clamping leaves an in-bounds part of a coordinate unchanged. */
  lemma {:induction false} ClampSplit(cl: seq<nat>, ct: seq<nat>, s: seq<nat>, tail: seq<nat>)
    requires |cl| == |s| && InBounds(ct, tail)
    ensures Clamp(cl + ct, s + tail) == Clamp(cl, s) + ct
  {
    var c, p := cl + ct, s + tail;
    forall i | 0 <= i < |c|
      ensures Clamp(c, p)[i] == (Clamp(cl, s) + ct)[i]
    {
      if i >= |cl| {
        assert c[i] == ct[i - |cl|] < tail[i - |cl|] == p[i];
      } else {
        assert c[i] == cl[i] && p[i] == s[i];
      }
    }
  }

  /** Slices: the coordinate after the first, clamped, is the clamped tail. */
  lemma {:induction false} ClampTail(c: seq<nat>, s: seq<nat>)
    requires |c| == |s| > 0
    ensures Clamp(c, s)[1..] == Clamp(c[1..], s[1..])
    ensures Clamp(c, s)[0] == if c[0] < s[0] then c[0] else 0
  {
  }

  /** One step of the slice offset computation, peeling off the first dimension. */
  lemma {:induction false} SliceIndexStep(c: seq<nat>, s: seq<nat>, len: nat)
    requires |c| == |s| > 0
    ensures len * RowMajor(Clamp(c, s), s) ==
      (if c[0] < s[0] then c[0] * (len * Product(s[1..])) else 0)
      + len * RowMajor(Clamp(c[1..], s[1..]), s[1..])
    ensures len * Product(s) == (len * Product(s[1..])) * s[0]
  {
    ClampTail(c, s);
    var head := if c[0] < s[0] then c[0] else 0;
    var w := Product(s[1..]);
    var rest := RowMajor(Clamp(c[1..], s[1..]), s[1..]);
    assert RowMajor(Clamp(c, s), s) == head * w + rest;
    MulScaled(len, head, w, rest);
    MulRotate(len, s[0], w);
  }

  /** The part of the slice offset contributed by the dimensions from `i` on. */
  function SuffixOffset(c: seq<nat>, s: seq<nat>, len: nat, i: nat): nat
    requires |c| == |s| && i <= |s|
  {
    len * RowMajor(Clamp(c[i..], s[i..]), s[i..])
  }

  /** The stride of dimension `i - 1`: the slice length times the dimensions from `i` on. */
  function SuffixStride(s: seq<nat>, len: nat, i: nat): nat
    requires i <= |s|
  {
    len * Product(s[i..])
  }

  lemma {:induction false} SuffixEmpty(c: seq<nat>, s: seq<nat>, len: nat)
    requires |c| == |s|
    ensures SuffixOffset(c, s, len, |s|) == 0 && SuffixStride(s, len, |s|) == len
  {
    assert s[|s|..] == [];
  }

  /** Adding dimension `i` to the suffix: the recurrence the offset loop follows. */
  lemma {:induction false} SuffixStep(c: seq<nat>, s: seq<nat>, len: nat, i: nat)
    requires |c| == |s| && i < |s|
    ensures SuffixOffset(c, s, len, i) ==
      (if c[i] < s[i] then c[i] * SuffixStride(s, len, i + 1) else 0) + SuffixOffset(c, s, len, i + 1)
    ensures SuffixStride(s, len, i) == SuffixStride(s, len, i + 1) * s[i]
  {
    assert c[i..][1..] == c[i + 1..] && s[i..][1..] == s[i + 1..];
    SliceIndexStep(c[i..], s[i..], len);
  }

  lemma {:induction false} RowMajorZeros(s: seq<nat>)
    ensures RowMajor(seq(|s|, _ => 0), s) == 0
    decreases |s|
  {
    if |s| > 0 {
      assert seq(|s|, _ => 0)[1..] == seq(|s| - 1, _ => 0);
      RowMajorZeros(s[1..]);
    }
  }

  /** Shapes [2, 1, 3] and [1, 3, 3] keeping one trailing dimension: the iterator runs over [2, 3], six pairs. */
  lemma {:induction false} PairCountKeepingOne()
    ensures ValidTrailing([2, 1, 3], [1, 3, 3], 1)
    ensures ResultShape([2, 1, 3], [1, 3, 3], 1) == [2, 3]
    ensures Product(ResultShape([2, 1, 3], [1, 3, 3], 1)) == 6
  {
    assert [2, 1, 3][..2] == [2, 1] && [1, 3, 3][..2] == [1, 3];
    LeadingShapes([2, 1, 3], [1, 3, 3], 1, [2, 1], [1, 3]);
    BroadcastOfSameRank([2, 1], [1, 3], [2, 3]);
    assert Product([2, 3]) == 6;
  }

  lemma {:induction false} LeadingShapes(s1: seq<nat>, s2: seq<nat>, t: nat, p1: seq<nat>, p2: seq<nat>)
    requires t <= |s1| && t <= |s2| && p1 == s1[..|s1| - t] && p2 == s2[..|s2| - t]
    ensures ValidTrailing(s1, s2, t) <==> Compatible(p1, p2)
    ensures ValidTrailing(s1, s2, t) ==> ResultShape(s1, s2, t) == GetShapeAfterBroadcast(p1, p2).value
  {
  }

  /** Two shapes of equal rank that broadcast pointwise to `r`. */
  lemma {:induction false} BroadcastOfSameRank(p1: seq<nat>, p2: seq<nat>, r: seq<nat>)
    requires |p1| == |p2| == |r|
    requires forall i :: 0 <= i < |r| ==> DimsCompatible(p1[i], p2[i]) && r[i] == Max(p1[i], p2[i])
    ensures Compatible(p1, p2) && GetShapeAfterBroadcast(p1, p2) == Ok(r)
  {
    var n := Max(|p1|, |p2|);
    assert n == |r|;
    assert Compatible(p1, p2);
    var b := GetShapeAfterBroadcast(p1, p2).value;
    assert |b| == |r|;
    assert forall i :: 0 <= i < |r| ==> b[i] == r[i];
    assert b == r;
  }

  /** The values an iterator over `a1` and `a2` keeping `t` trailing dimensions is built from. */
  predicate IteratorShapes(a1: Array, a2: Array, t: nat, s1: seq<nat>, s2: seq<nat>,
                           len1: nat, len2: nat, r: seq<nat>)
  {
    && ValidTrailing(a1.shape, a2.shape, t)
    && (s1, s2) == GetPaddedBroadcastShapes(a1.shape, a2.shape, t)
    && len1 == GetSliceLen(a1.shape, t)
    && len2 == GetSliceLen(a2.shape, t)
    && r == ResultShape(a1.shape, a2.shape, t)
    && 0 !in r
    && |s1| == |s2| == |r|
  }

  /**
   * The odometer state after `count` steps over shape `r`: either finished
   * after all `Product(r)` steps, or at the coordinate of offset `count`.
   */
  predicate Odometer(r: seq<nat>, cur: seq<nat>, done: bool, count: nat)
  {
    && 0 !in r
    && |cur| == |r|
    && count <= Product(r)
    && (done <==> count == Product(r))
    && (!done ==> InBounds(cur, r) && RowMajor(cur, r) == count)
  }

  /** The values computed when an iterator is built satisfy `IteratorShapes`. */
  lemma {:induction false} IteratorShapesOf(a1: Array, a2: Array, t: nat, s1: seq<nat>, s2: seq<nat>,
                                            len1: nat, len2: nat, r: seq<nat>)
    requires ValidTrailing(a1.shape, a2.shape, t)
    requires (s1, s2) == GetPaddedBroadcastShapes(a1.shape, a2.shape, t)
    requires len1 == GetSliceLen(a1.shape, t) && len2 == GetSliceLen(a2.shape, t)
    requires r == ResultShape(a1.shape, a2.shape, t)
    ensures IteratorShapes(a1, a2, t, s1, s2, len1, len2, r)
  {
    ResultShapePositive(a1.shape, a2.shape, t);
    ResultShapeAt(a1.shape, a2.shape, t);
  }

  /** A fresh odometer starts at the all-zero coordinate, at offset 0. */
  lemma {:induction false} OdometerStart(r: seq<nat>)
    requires 0 !in r
    ensures Odometer(r, seq(|r|, _ => 0), false, 0)
  {
    ProductPositive(r);
    RowMajorZeros(r);
  }

  /** One step of the odometer, given the facts the increment establishes. */
  lemma {:induction false} OdometerStep(r: seq<nat>, cur: seq<nat>, cur': seq<nat>, done': bool, count: nat)
    requires Odometer(r, cur, false, count) && |r| > 0
    requires |cur'| == |r|
    requires done' <==> RowMajor(cur, r) + 1 == Product(r)
    requires !done' ==> InBounds(cur', r) && RowMajor(cur', r) == RowMajor(cur, r) + 1
    ensures Odometer(r, cur', done', count + 1)
  {
  }

  /**
   * The coordinate after `c` in row-major order over `shape`, carrying from the
   * last dimension towards the first; `finished` when `c` was the last one.
   */
  method NextCoordinate(c: seq<nat>, shape: seq<nat>) returns (next: seq<nat>, finished: bool)
    requires |c| == |shape| > 0 && 0 !in shape && InBounds(c, shape)
    ensures |next| == |shape|
    ensures finished <==> RowMajor(c, shape) + 1 == Product(shape)
    ensures !finished ==> InBounds(next, shape) && RowMajor(next, shape) == RowMajor(c, shape) + 1
  {
    var cur := c;
    var m := |shape|;
    ghost var k := RowMajor(cur, shape);
    RowMajorBound(cur, shape);
    RowMajorBumpLast(cur, shape);
    cur := cur[m - 1 := cur[m - 1] + 1];
    finished := false;
    var i := m;
    while i > 0
      invariant 0 <= i <= m && |cur| == m
      invariant RowMajor(cur, shape) == k + 1
      invariant forall j :: 0 <= j < m ==> cur[j] <= shape[j]
      invariant forall j :: 0 <= j < i - 1 ==> cur[j] < shape[j]
      invariant forall j :: i <= j < m && j > 0 ==> cur[j] < shape[j]
      invariant finished <==> i == 0 && cur[0] == shape[0]
    {
      i := i - 1;
      if i == 0 && cur[0] == shape[0] {
        finished := true;
      }
      if cur[i] == shape[i] && i != 0 {
        RowMajorCarry(cur, shape, i);
        cur := cur[i := 0][i - 1 := cur[i - 1] + 1];
      }
    }
    if finished {
      RowMajorPastEnd(cur, shape);
    } else {
      RowMajorBound(cur, shape);
    }
    next := cur;
  }

  /** The pairs of slices the iterator keeping `t` dimensions yields, in order. */
  function Pairs(a1: Array, a2: Array, t: nat): (ps: seq<(seq<real>, seq<real>)>)
    requires ValidTrailing(a1.shape, a2.shape, t)
    ensures |ps| == Product(ResultShape(a1.shape, a2.shape, t))
    ensures forall k :: 0 <= k < |ps| ==> |ps[k].0| == GetSliceLen(a1.shape, t) && |ps[k].1| == GetSliceLen(a2.shape, t)
  {
    var n := Product(ResultShape(a1.shape, a2.shape, t));
    seq(n, k requires 0 <= k < n => SlicePair(a1, a2, t, k))
  }

  /** The iterator's next pair, which is pair number `count` of `ps`. */
  method NextPair(it: BroadcastIterator, a1: Array, a2: Array, t: nat, ghost ps: seq<(seq<real>, seq<real>)>)
      returns (pair: Option<(seq<real>, seq<real>)>)
    requires it.Built() && it.Valid() && it.operand1 == a1 && it.operand2 == a2 && it.trailingDims == t
    requires ps == Pairs(a1, a2, t)
    modifies it
    ensures it.Valid()
    ensures pair.None? ==> it.count == old(it.count) == |ps|
    ensures pair.Some? ==> old(it.count) < |ps| && it.count == old(it.count) + 1 && pair.value == ps[old(it.count)]
  {
    pair := it.Next();
  }

  /** The iterator state: the current result coordinate and whether the iteration ended. */
  class BroadcastIterator {
    const operand1: Array
    const operand2: Array
    ghost const trailingDims: nat
    const slice1Len: nat
    const slice2Len: nat
    const broadcastShape1: seq<nat>
    const broadcastShape2: seq<nat>
    const broadcastResultShape: seq<nat>
    var currentIndex: seq<nat>
    var done: bool
    /** The number of pairs yielded so far. */
    ghost var count: nat

    /**
     * The fixed part of the state: the shapes and slice lengths were computed
     * from the two operands. It reads only constant fields, so it holds for
     * the whole life of the iterator once the constructor establishes it.
     */
    ghost predicate Built()
    {
      IteratorShapes(operand1, operand2, trailingDims, broadcastShape1, broadcastShape2,
                     slice1Len, slice2Len, broadcastResultShape)
    }

    /** The moving part of the state: the odometer after `count` steps. */
    ghost predicate Valid()
      reads this
    {
      Odometer(broadcastResultShape, currentIndex, done, count)
    }

    /** The number of pairs still to come. */
    ghost function Remaining(): nat
      reads this
      requires Valid()
    {
      Product(broadcastResultShape) - count
    }

    constructor (a1: Array, a2: Array, t: nat, shape1: seq<nat>, shape2: seq<nat>,
                 len1: nat, len2: nat, result: seq<nat>)
      requires IteratorShapes(a1, a2, t, shape1, shape2, len1, len2, result)
      ensures operand1 == a1 && operand2 == a2 && trailingDims == t
      ensures count == 0 && Built() && Valid()
    {
      operand1, operand2, trailingDims := a1, a2, t;
      slice1Len, slice2Len := len1, len2;
      broadcastShape1, broadcastShape2, broadcastResultShape := shape1, shape2, result;
      currentIndex := seq(|result|, _ => 0);
      done := false;
      count := 0;
      OdometerStart(result);
    }

    /**
     * Builds an iterator over `a1` and `a2` keeping `t` trailing dimensions.
     * Fails when `t` exceeds either rank or the leading parts do not broadcast.
     */
    static method Create(a1: Array, a2: Array, t: nat) returns (r: Result<BroadcastIterator>)
      ensures r.Ok? <==> ValidTrailing(a1.shape, a2.shape, t)
      ensures r.Err? ==> r.error == ShapeError
      ensures r.Ok? ==> fresh(r.value) && r.value.Built() && r.value.Valid() && r.value.count == 0
      ensures r.Ok? ==> r.value.operand1 == a1 && r.value.operand2 == a2 && r.value.trailingDims == t
    {
      var valid := CheckTrailingDims(a1.shape, a2.shape, t);
      if valid.Fail? {
        return Err(valid.error);
      }
      var maxLen := Max(|a1.shape|, |a2.shape|);
      var padded := GetPaddedBroadcastShapes(a1.shape, a2.shape, t);
      var len1 := GetSliceLen(a1.shape, t);
      var len2 := GetSliceLen(a2.shape, t);
      var result := PointwiseMax(padded.0, padded.1, maxLen - t);
      ResultShapeIs(a1.shape, a2.shape, t, result);
      IteratorShapesOf(a1, a2, t, padded.0, padded.1, len1, len2, result);
      var it := new BroadcastIterator(a1, a2, t, padded.0, padded.1, len1, len2, result);
      return Ok(it);
    }

    /** The first `n` dimensions of the result: the larger of the two padded dimensions. */
    static method PointwiseMax(p1: seq<nat>, p2: seq<nat>, n: nat) returns (result: seq<nat>)
      requires n <= |p1| && n <= |p2|
      ensures |result| == n
      ensures forall j :: 0 <= j < n ==> result[j] == Max(p1[j], p2[j])
    {
      result := [];
      for i := 0 to n
        invariant |result| == i
        invariant forall j :: 0 <= j < i ==> result[j] == Max(p1[j], p2[j])
      {
        result := result + [Max(p1[i], p2[i])];
      }
    }

    /** Advances `currentIndex` by one in row-major order; sets `done` when it runs past the end. */
    method IncrementBroadcastShapeIterator()
      requires |currentIndex| == |broadcastResultShape| > 0 && 0 !in broadcastResultShape
      requires InBounds(currentIndex, broadcastResultShape) && !done
      modifies this
      ensures |currentIndex| == |broadcastResultShape| && count == old(count)
      ensures done <==> RowMajor(old(currentIndex), broadcastResultShape) + 1 == Product(broadcastResultShape)
      ensures !done ==> InBounds(currentIndex, broadcastResultShape)
      ensures !done ==> RowMajor(currentIndex, broadcastResultShape) == RowMajor(old(currentIndex), broadcastResultShape) + 1
    {
      var next, finished := NextCoordinate(currentIndex, broadcastResultShape);
      currentIndex, done := next, finished;
    }

    /** One step of the odometer: the next coordinate, counted. */
    method Advance()
      requires Valid() && !done && |currentIndex| > 0
      modifies this
      ensures Valid() && count == old(count) + 1
    {
      ghost var cur := currentIndex;
      IncrementBroadcastShapeIterator();
      OdometerStep(broadcastResultShape, cur, currentIndex, done, count);
      count := count + 1;
    }

    /** The offset of the slice contributed by an operand with padded leading shape `shape`. */
    method ComputeSliceIndex(shape: seq<nat>, sliceLen: nat) returns (idx: nat)
      requires |shape| == |currentIndex|
      ensures idx == SliceIndex(currentIndex, shape, sliceLen)
    {
      var cur := currentIndex;
      idx := 0;
      var prod := sliceLen;
      var i := |shape|;
      SuffixEmpty(cur, shape, sliceLen);
      while i > 0
        invariant 0 <= i <= |shape|
        invariant idx == SuffixOffset(cur, shape, sliceLen, i)
        invariant prod == SuffixStride(shape, sliceLen, i)
      {
        i := i - 1;
        SuffixStep(cur, shape, sliceLen, i);
        if cur[i] < shape[i] {
          idx := idx + cur[i] * prod;
        }
        prod := prod * shape[i];
      }
      assert cur[0..] == cur && shape[0..] == shape;
    }

    /** The pair of slices at the current coordinate, which has offset `k`. */
    method CurrentSlices(ghost k: nat) returns (r: Option<(seq<real>, seq<real>)>)
      requires Built()
      requires InBounds(currentIndex, broadcastResultShape) && RowMajor(currentIndex, broadcastResultShape) == k
      ensures k < Product(broadcastResultShape)
      ensures r == Some(SlicePair(operand1, operand2, trailingDims, k))
    {
      RowMajorBound(currentIndex, broadcastResultShape);
      var index1 := ComputeSliceIndex(broadcastShape1, slice1Len);
      var index2 := ComputeSliceIndex(broadcastShape2, slice2Len);
      SlicePairAt(operand1, operand2, trailingDims, k, currentIndex, broadcastShape1, broadcastShape2, slice1Len, slice2Len);
      r := Some((operand1.data[index1..index1 + slice1Len], operand2.data[index2..index2 + slice2Len]));
    }

    /**
     * Yields the next pair of slices, or nothing once every coordinate of the
     * result shape has been visited. With no leading dimension at all the
     * single pair is the two whole buffers.
     */
    method Next() returns (r: Option<(seq<real>, seq<real>)>)
      requires Built() && Valid()
      modifies this
      ensures Valid()
      ensures old(done) ==> r.None? && done && count == old(count)
      ensures !old(done) ==> old(count) < Product(broadcastResultShape) && count == old(count) + 1
      ensures !old(done) ==> r == Some(SlicePair(operand1, operand2, trailingDims, old(count)))
    {
      if done {
        return None;
      }
      ghost var k := count;
      ghost var t := trailingDims;
      ghost var shape := broadcastResultShape;
      if |currentIndex| == 0 {
        SlicePairWhole(operand1, operand2, t, shape, k);
        r := Some((operand1.data, operand2.data));
        done := true;
        count := count + 1;
        return;
      }
      r := CurrentSlices(k);
      Advance();
    }
  }
}
