/**
 * Broadcasting elementwise operations between two arrays.
 *
 * The number `t` of trailing dimensions the two shapes have literally in
 * common is kept whole: the broadcast iterator walks the broadcast of the
 * remaining leading dimensions and, at each step, the two slices it yields
 * are combined pairwise into the next block of the output buffer.
 */
module Elementwise {
  import opened Outcomes
  import opened Arith
  import opened Layout
  import opened Utils
  import opened ArrayCore
  import opened Broadcast

  /** Counts equal trailing dimensions, the first `t` of them (from the end) being already counted. */
  function TrailingEqualFrom(s1: seq<nat>, s2: seq<nat>, t: nat): (u: nat)
    requires t <= |s1| && t <= |s2|
    ensures t <= u <= |s1| && u <= |s2|
    decreases |s1| - t
  {
    if t < |s1| && t < |s2| && s1[|s1| - 1 - t] == s2[|s2| - 1 - t] then TrailingEqualFrom(s1, s2, t + 1)
    else t
  }

  /** The number of trailing dimensions, counted from the last, that are equal in both shapes. */
  function TrailingEqual(s1: seq<nat>, s2: seq<nat>): (t: nat)
    ensures t <= |s1| && t <= |s2|
  {
    TrailingEqualFrom(s1, s2, 0)
  }

  /**
   * The count from `t` on: every counted dimension is equal in both shapes,
   * and the count stops at the first differing pair or when a shape runs out.
   */
  lemma {:induction false} TrailingEqualFromSpec(s1: seq<nat>, s2: seq<nat>, t: nat)
    requires t <= |s1| && t <= |s2|
    requires forall k :: |s1| - t <= k < |s1| ==> s1[k] == s2[k - |s1| + |s2|]
    ensures var u := TrailingEqualFrom(s1, s2, t);
      (forall k :: |s1| - u <= k < |s1| ==> s1[k] == s2[k - |s1| + |s2|]) &&
      (u == |s1| || u == |s2| || s1[|s1| - 1 - u] != s2[|s2| - 1 - u])
    decreases |s1| - t
  {
    if t < |s1| && t < |s2| && s1[|s1| - 1 - t] == s2[|s2| - 1 - t] {
      TrailingEqualFromSpec(s1, s2, t + 1);
    }
  }

  /** The trailing dimensions counted are equal, and the next pair (if any) differs. */
  lemma {:induction false} TrailingEqualSpec(s1: seq<nat>, s2: seq<nat>)
    ensures var t := TrailingEqual(s1, s2);
      s1[|s1| - t..] == s2[|s2| - t..] &&
      (t == |s1| || t == |s2| || s1[|s1| - 1 - t] != s2[|s2| - 1 - t])
  {
    var t := TrailingEqual(s1, s2);
    TrailingEqualFromSpec(s1, s2, 0);
    var p1, p2 := s1[|s1| - t..], s2[|s2| - t..];
    forall j | 0 <= j < t
      ensures p1[j] == p2[j]
    {
      var k := |s1| - t + j;
      assert p1[j] == s1[k] && p2[j] == s2[k - |s1| + |s2|];
    }
  }

  /**
   * Counts the trailing dimensions the two shapes have in common, walking
   * both from the end and stopping at the first difference.
   */
  method CountTrailingDims(s1: seq<nat>, s2: seq<nat>) returns (t: nat)
    ensures t == TrailingEqual(s1, s2)
  {
    t := 0;
    while t < |s1| && t < |s2| && s1[|s1| - 1 - t] == s2[|s2| - 1 - t]
      invariant t <= |s1| && t <= |s2|
      invariant TrailingEqualFrom(s1, s2, t) == TrailingEqual(s1, s2)
      decreases |s1| - t
    {
      t := t + 1;
    }
  }

  /** Padding the shape cut before its last `t` entries gives the same leading dimensions. */
  lemma {:induction false} PaddedPrefix(s: seq<nat>, n: nat, t: nat, i: nat)
    requires |s| <= n && t <= |s| && i < n - t
    ensures PaddedDim(s[..|s| - t], n - t, i) == PaddedDim(s, n, i)
  {
  }

  /** The padded shape's last `t` dimensions are the shape's last `t` dimensions. */
  lemma {:induction false} PaddedSuffix(s: seq<nat>, n: nat, t: nat, i: nat)
    requires |s| <= n && t <= |s| && n - t <= i < n
    ensures PaddedDim(s, n, i) == s[|s| - t..][i - (n - t)]
  {
  }

  /** Cutting the same number of trailing dimensions off two compatible shapes keeps them compatible. */
  lemma {:induction false} LeadingCompatible(s1: seq<nat>, s2: seq<nat>, t: nat)
    requires Compatible(s1, s2) && t <= |s1| && t <= |s2|
    ensures ValidTrailing(s1, s2, t)
  {
    var n := Max(|s1|, |s2|);
    LeadingCompatibleOf(s1, s2, t, s1[..|s1| - t], s2[..|s2| - t], n, n - t);
  }

  lemma {:induction false} LeadingCompatibleOf(s1: seq<nat>, s2: seq<nat>, t: nat,
                                               q1: seq<nat>, q2: seq<nat>, n: nat, m: nat)
    requires Compatible(s1, s2) && t <= |s1| && t <= |s2|
    requires q1 == s1[..|s1| - t] && q2 == s2[..|s2| - t] && n == Max(|s1|, |s2|) && m == n - t
    ensures Compatible(q1, q2)
  {
    assert Max(|q1|, |q2|) == m;
    forall i | 0 <= i < m
      ensures DimsCompatible(PaddedDim(q1, m, i), PaddedDim(q2, m, i))
    {
      PaddedPrefix(s1, n, t, i);
      PaddedPrefix(s2, n, t, i);
    }
  }

  /**
   * When two compatible shapes share their last `t` dimensions, the iterator
   * keeping `t` dimensions can be built, and the broadcast shape is the
   * broadcast of the leading parts followed by the shared dimensions.
   */
  lemma {:induction false} BroadcastSplit(s1: seq<nat>, s2: seq<nat>, t: nat)
    requires Compatible(s1, s2) && t <= |s1| && t <= |s2| && s1[|s1| - t..] == s2[|s2| - t..]
    ensures ValidTrailing(s1, s2, t)
    ensures GetShapeAfterBroadcast(s1, s2).value == ResultShape(s1, s2, t) + s1[|s1| - t..]
  {
    LeadingCompatible(s1, s2, t);
    var n := Max(|s1|, |s2|);
    var full := GetShapeAfterBroadcast(s1, s2).value;
    var lead := ResultShape(s1, s2, t);
    var tail := s1[|s1| - t..];
    forall i | 0 <= i < n
      ensures full[i] == (lead + tail)[i]
    {
      if i < n - t {
        BroadcastLead(s1, s2, t, n, i);
      } else {
        BroadcastTail(s1, s2, t, n, i);
      }
    }
  }

  /** A leading entry of the broadcast shape is the entry of the leading parts' broadcast. */
  lemma {:induction false} BroadcastLead(s1: seq<nat>, s2: seq<nat>, t: nat, n: nat, i: nat)
    requires Compatible(s1, s2) && ValidTrailing(s1, s2, t) && n == Max(|s1|, |s2|) && i < n - t
    ensures GetShapeAfterBroadcast(s1, s2).value[i] == ResultShape(s1, s2, t)[i]
  {
    PaddedPrefix(s1, n, t, i);
    PaddedPrefix(s2, n, t, i);
  }

  /** A trailing entry of the broadcast shape is the shared dimension. */
  lemma {:induction false} BroadcastTail(s1: seq<nat>, s2: seq<nat>, t: nat, n: nat, i: nat)
    requires Compatible(s1, s2) && t <= |s1| && t <= |s2| && s1[|s1| - t..] == s2[|s2| - t..]
    requires n == Max(|s1|, |s2|) && n - t <= i < n
    ensures GetShapeAfterBroadcast(s1, s2).value[i] == s1[|s1| - t..][i - (n - t)]
  {
    PaddedSuffix(s1, n, t, i);
    PaddedSuffix(s2, n, t, i);
  }


  /** Two slices of equal length combined pairwise. */
  function Zip(f: (real, real) -> real, p: (seq<real>, seq<real>)): (z: seq<real>)
    requires |p.0| == |p.1|
    ensures |z| == |p.0|
  {
    seq(|p.0|, j requires 0 <= j < |p.0| => f(p.0[j], p.1[j]))
  }

  /** The iterator keeping `t` dimensions can be built, and both slices of each pair have the same length. */
  predicate SharedTrailing(a1: Array, a2: Array, t: nat)
  {
    ValidTrailing(a1.shape, a2.shape, t) && GetSliceLen(a1.shape, t) == GetSliceLen(a2.shape, t)
  }

  /** Both slices of every pair have `len` elements. */
  predicate PairsOfLength(ps: seq<(seq<real>, seq<real>)>, len: nat)
  {
    forall k :: 0 <= k < |ps| ==> |ps[k].0| == len && |ps[k].1| == len
  }

  /** The first `n` pairs combined by `f` and laid out one block after another. */
  function ZipAll(f: (real, real) -> real, ps: seq<(seq<real>, seq<real>)>, len: nat, n: nat): seq<real>
    requires PairsOfLength(ps, len) && n <= |ps|
  {
    if n == 0 then [] else ZipAll(f, ps, len, n - 1) + Zip(f, ps[n - 1])
  }

  /** `n` pairs give `n` blocks of `len` elements. */
  lemma {:induction false} ZipAllLength(f: (real, real) -> real, ps: seq<(seq<real>, seq<real>)>, len: nat, n: nat)
    requires PairsOfLength(ps, len) && n <= |ps|
    ensures |ZipAll(f, ps, len, n)| == n * len
  {
    if n > 0 {
      ZipAllLength(f, ps, len, n - 1);
      MulDistrib(n - 1, 1, len);
    }
  }

  /**
   * Element `j` of block `i` sits at offset `i * len + j` and is `f` applied
   * to element `j` of both slices of pair `i`.
   */
  lemma {:induction false} ZipAllAt(f: (real, real) -> real, ps: seq<(seq<real>, seq<real>)>, len: nat,
                                    n: nat, i: nat, j: nat)
    requires PairsOfLength(ps, len) && n <= |ps| && i < n && j < len
    ensures i * len + j < |ZipAll(f, ps, len, n)|
    ensures ZipAll(f, ps, len, n)[i * len + j] == f(ps[i].0[j], ps[i].1[j])
  {
    ZipAllLength(f, ps, len, n);
    ZipAllLength(f, ps, len, n - 1);
    BlockIndex(i, j, len, n);
    if i < n - 1 {
      BlockIndex(i, j, len, n - 1);
      ZipAllAt(f, ps, len, n - 1, i, j);
    } else {
      MulDistrib(n - 1, 1, len);
    }
  }

  /** With equal slice lengths, both slices of every pair have that length. */
  lemma {:induction false} SharedPairs(a1: Array, a2: Array, t: nat)
    requires SharedTrailing(a1, a2, t)
    ensures PairsOfLength(Pairs(a1, a2, t), GetSliceLen(a1.shape, t))
  {
  }

  /**
   * With `t` the number of shared trailing dimensions, the iterator keeping
   * them can be built and the broadcast shape is the broadcast of the
   * leading parts followed by the shared dimensions.
   */
  lemma {:induction false} TrailingSplit(s1: seq<nat>, s2: seq<nat>, t: nat)
    requires Compatible(s1, s2) && t == TrailingEqual(s1, s2)
    ensures t <= |s1| && t <= |s2| && s1[|s1| - t..] == s2[|s2| - t..] && ValidTrailing(s1, s2, t)
    ensures GetShapeAfterBroadcast(s1, s2).value == ResultShape(s1, s2, t) + s1[|s1| - t..]
  {
    TrailingEqualSpec(s1, s2);
    BroadcastSplit(s1, s2, t);
  }

  /** The layout of the combined blocks in an array of the broadcast shape `shape`. */
  lemma {:induction false} ElementwiseLayout(a1: Array, a2: Array, t: nat, shape: seq<nat>)
    requires Compatible(a1.shape, a2.shape) && t == TrailingEqual(a1.shape, a2.shape)
    requires shape == GetShapeAfterBroadcast(a1.shape, a2.shape).value
    ensures t <= |shape| && SharedTrailing(a1, a2, t) && 0 !in shape
    ensures GetSliceLen(a1.shape, t) == Product(shape[|shape| - t..])
    ensures Product(ResultShape(a1.shape, a2.shape, t)) * Product(shape[|shape| - t..]) == Product(shape)
  {
    TrailingSplit(a1.shape, a2.shape, t);
    BroadcastPositive(a1.shape, a2.shape);
    var lead, tail := ResultShape(a1.shape, a2.shape, t), a1.shape[|a1.shape| - t..];
    assert shape[|shape| - t..] == tail;
    ProductAppend(lead, tail);
  }

  /**
   * The result of combining `a1` and `a2` with `f` under broadcasting: fails
   * when the shapes do not broadcast; otherwise the array of the broadcast
   * shape whose blocks are the iterator's slice pairs combined pairwise.
   */
  function ElementwiseSpec(a1: Array, a2: Array, f: (real, real) -> real): (r: Result<Array>)
    ensures r.Ok? <==> Compatible(a1.shape, a2.shape)
    ensures r.Err? ==> r.error == ShapeError
    ensures r.Ok? ==> r.value.shape == GetShapeAfterBroadcast(a1.shape, a2.shape).value
  {
    if !Compatible(a1.shape, a2.shape) then Err(ShapeError)
    else
      var t := TrailingEqual(a1.shape, a2.shape);
      var shape := GetShapeAfterBroadcast(a1.shape, a2.shape).value;
      var len := GetSliceLen(a1.shape, t);
      ElementwiseLayout(a1, a2, t, shape);
      var ps := Pairs(a1, a2, t);
      SharedPairs(a1, a2, t);
      ZipAllLength(f, ps, len, |ps|);
      Ok(RawArray(shape, ZipAll(f, ps, len, |ps|)))
  }

  /** Arrays of the same shape are combined element by element. */
  lemma {:induction false} ElementwiseSameShape(a1: Array, a2: Array, f: (real, real) -> real)
    requires a1.shape == a2.shape
    ensures ElementwiseSpec(a1, a2, f).Ok?
    ensures ElementwiseSpec(a1, a2, f).value.shape == a1.shape
    ensures ElementwiseSpec(a1, a2, f).value.data == Zip(f, (a1.data, a2.data))
  {
    SameShapePairs(a1, a2);
    var t, len := |a1.shape|, |a1.data|;
    var ps := Pairs(a1, a2, t);
    SharedPairs(a1, a2, t);
    assert ZipAll(f, ps, len, 1) == ZipAll(f, ps, len, 0) + Zip(f, ps[0]);
  }

  /** Arrays of the same shape share every dimension, and the iterator yields their two whole buffers once. */
  lemma {:induction false} SameShapePairs(a1: Array, a2: Array)
    requires a1.shape == a2.shape
    ensures Compatible(a1.shape, a2.shape) && TrailingEqual(a1.shape, a2.shape) == |a1.shape|
    ensures GetShapeAfterBroadcast(a1.shape, a2.shape).value == a1.shape
    ensures SharedTrailing(a1, a2, |a1.shape|) && GetSliceLen(a1.shape, |a1.shape|) == |a1.data|
    ensures Pairs(a1, a2, |a1.shape|) == [(a1.data, a2.data)]
  {
    var s := a1.shape;
    assert Compatible(s, s);
    var t := TrailingEqual(s, s);
    var shape := GetShapeAfterBroadcast(s, s).value;
    ElementwiseLayout(a1, a2, t, shape);
    assert t == |s| by {
      TrailingEqualSpec(s, s);
    }
    var r := ResultShape(s, s, t);
    assert shape == s by {
      TrailingSplit(s, s, t);
      assert r == [];
      assert s[|s| - t..] == s;
    }
    SlicePairWhole(a1, a2, t, r, 0);
    assert Pairs(a1, a2, t) == [(a1.data, a2.data)];
  }

  /**
   * Broadcasting, element by element: the element of the result at
   * coordinate `c` is `f` applied to the elements of `a1` and `a2` that
   * broadcasting maps `c` to.
   */
  lemma {:induction false} ElementwiseAt(a1: Array, a2: Array, f: (real, real) -> real, c: seq<nat>)
    requires Compatible(a1.shape, a2.shape)
    requires InBounds(c, GetShapeAfterBroadcast(a1.shape, a2.shape).value)
    ensures var r := ElementwiseSpec(a1, a2, f).value;
      RowMajor(c, r.shape) < |r.data| &&
      r.data[RowMajor(c, r.shape)] == f(a1.data[SourceIndex(c, a1.shape)], a2.data[SourceIndex(c, a2.shape)])
  {
    var t := TrailingEqual(a1.shape, a2.shape);
    TrailingSplit(a1.shape, a2.shape, t);
    var lead := ResultShape(a1.shape, a2.shape, t);
    var tail := a1.shape[|a1.shape| - t..];
    var len := GetSliceLen(a1.shape, t);
    var ps := Pairs(a1, a2, t);
    ElementwiseAtLayout(a1, a2, f, t, lead, tail, len, ps, c);
    var cl, ct := ZipAllAtCoordinate(f, ps, len, lead, tail, c);
    PairAt(a1, a2, t, cl, ct);
  }

  /** The facts `ElementwiseAt` reads the result through: blocks of `len` over `lead`, elements over `tail`. */
  lemma {:induction false} ElementwiseAtLayout(a1: Array, a2: Array, f: (real, real) -> real, t: nat,
                                               lead: seq<nat>, tail: seq<nat>, len: nat,
                                               ps: seq<(seq<real>, seq<real>)>, c: seq<nat>)
    requires Compatible(a1.shape, a2.shape) && t == TrailingEqual(a1.shape, a2.shape) && ValidTrailing(a1.shape, a2.shape, t)
    requires lead == ResultShape(a1.shape, a2.shape, t) && tail == a1.shape[|a1.shape| - t..]
    requires len == GetSliceLen(a1.shape, t) && ps == Pairs(a1, a2, t)
    requires InBounds(c, GetShapeAfterBroadcast(a1.shape, a2.shape).value)
    ensures PairsOfLength(ps, len) && |ps| == Product(lead) && len == Product(tail) && InBounds(c, lead + tail)
    ensures ElementwiseSpec(a1, a2, f).Ok? && ElementwiseSpec(a1, a2, f).value.shape == lead + tail
    ensures ElementwiseSpec(a1, a2, f).value.data == ZipAll(f, ps, len, |ps|)
  {
    TrailingSplit(a1.shape, a2.shape, t);
    ElementwiseData(a1, a2, f, t, len, ps);
  }

  /** The data of the result: the pairs of slices of the iterator keeping `t` dimensions, combined by `f`. */
  lemma {:induction false} ElementwiseData(a1: Array, a2: Array, f: (real, real) -> real, t: nat, len: nat,
                                           ps: seq<(seq<real>, seq<real>)>)
    requires Compatible(a1.shape, a2.shape) && t == TrailingEqual(a1.shape, a2.shape)
    requires len == GetSliceLen(a1.shape, t) && ValidTrailing(a1.shape, a2.shape, t) && ps == Pairs(a1, a2, t)
    ensures PairsOfLength(ps, len)
    ensures ElementwiseSpec(a1, a2, f).value.data == ZipAll(f, ps, len, |ps|)
  {
    var shape := GetShapeAfterBroadcast(a1.shape, a2.shape).value;
    ElementwiseLayout(a1, a2, t, shape);
    SharedPairs(a1, a2, t);
  }

  /**
   * The combined blocks read at a coordinate of `lead + tail`: its leading
   * part `cl` selects the pair, its trailing part `ct` the element of both slices.
   */
  lemma {:induction false} ZipAllAtCoordinate(f: (real, real) -> real, ps: seq<(seq<real>, seq<real>)>, len: nat,
                                              lead: seq<nat>, tail: seq<nat>, c: seq<nat>)
    returns (cl: seq<nat>, ct: seq<nat>)
    requires PairsOfLength(ps, len) && |ps| == Product(lead) && len == Product(tail) && InBounds(c, lead + tail)
    ensures c == cl + ct && InBounds(cl, lead) && InBounds(ct, tail)
    ensures RowMajor(cl, lead) < |ps| && RowMajor(ct, tail) < len
    ensures RowMajor(c, lead + tail) < |ZipAll(f, ps, len, |ps|)|
    ensures ZipAll(f, ps, len, |ps|)[RowMajor(c, lead + tail)] ==
      f(ps[RowMajor(cl, lead)].0[RowMajor(ct, tail)], ps[RowMajor(cl, lead)].1[RowMajor(ct, tail)])
  {
    cl, ct := CoordinateSplit(c, lead, tail);
    RowMajorBound(cl, lead);
    RowMajorBound(ct, tail);
    ZipAllAt(f, ps, len, |ps|, RowMajor(cl, lead), RowMajor(ct, tail));
  }

  /**
   * The pair the iterator yields at the leading coordinate `cl`, read at the
   * trailing coordinate `ct`: the elements broadcasting maps `cl + ct` to.
   */
  lemma {:induction false} PairAt(a1: Array, a2: Array, t: nat, cl: seq<nat>, ct: seq<nat>)
    requires ValidTrailing(a1.shape, a2.shape, t) && a1.shape[|a1.shape| - t..] == a2.shape[|a2.shape| - t..]
    requires InBounds(cl, ResultShape(a1.shape, a2.shape, t)) && InBounds(ct, a1.shape[|a1.shape| - t..])
    ensures var k, j := RowMajor(cl, ResultShape(a1.shape, a2.shape, t)), RowMajor(ct, a1.shape[|a1.shape| - t..]);
      var ps := Pairs(a1, a2, t);
      k < |ps| && j < |ps[k].0| && j < |ps[k].1| &&
      ps[k].0[j] == a1.data[SourceIndex(cl + ct, a1.shape)] &&
      ps[k].1[j] == a2.data[SourceIndex(cl + ct, a2.shape)]
  {
    var lead := ResultShape(a1.shape, a2.shape, t);
    var k := RowMajor(cl, lead);
    RowMajorBound(cl, lead);
    ResultShapePositive(a1.shape, a2.shape, t);
    UnrankRowMajor(cl, lead);
    assert Pairs(a1, a2, t)[k] == (OperandSlice(a1, t, cl), OperandSlice(a2, t, cl));
    OperandAt(a1, t, cl, ct);
    OperandAt(a2, t, cl, ct);
  }

  /** The offset of a coordinate in a two-dimensional shape. */
  lemma {:induction false} RowMajorPair(x: seq<nat>, s: seq<nat>)
    requires |x| == |s| == 2
    ensures RowMajor(x, s) == x[0] * s[1] + x[1]
  {
    assert s[1..][1..] == [] && x[1..][1..] == [];
    assert Product(s[1..]) == s[1] * Product([]);
    assert RowMajor(x[1..], s[1..]) == x[1] * Product([]) + RowMajor([], []);
  }

  /** A row of shape [1, n] is read at the column of the result coordinate. */
  lemma {:induction false} SourceIndexRow(c: seq<nat>, s: seq<nat>)
    requires |c| == |s| == 2 && 0 !in s && s[0] == 1 && c[1] < s[1]
    ensures SourceIndex(c, s) == c[1]
  {
    PadLeftSame(s);
    RowMajorPair(Clamp(c, s), s);
  }

  /** A column of shape [m, 1] is read at the row of the result coordinate. */
  lemma {:induction false} SourceIndexColumn(c: seq<nat>, s: seq<nat>)
    requires |c| == |s| == 2 && 0 !in s && s[1] == 1 && c[0] < s[0]
    ensures SourceIndex(c, s) == c[0]
  {
    PadLeftSame(s);
    RowMajorPair(Clamp(c, s), s);
  }

  /** A row of shape [1, n] and a column of shape [m, 1] broadcast to [m, n] with no trailing dimension kept. */
  lemma {:induction false} OuterShapes(a: Array, b: Array)
    requires |a.shape| == 2 && a.shape[0] == 1 && |b.shape| == 2 && b.shape[1] == 1
    ensures ValidTrailing(a.shape, b.shape, 0)
    ensures ResultShape(a.shape, b.shape, 0) == [b.shape[0], a.shape[1]]
  {
    assert a.shape[..2] == a.shape && b.shape[..2] == b.shape;
    LeadingShapes(a.shape, b.shape, 0, a.shape, b.shape);
    BroadcastOfSameRank(a.shape, b.shape, [b.shape[0], a.shape[1]]);
  }

  /**
   * A row of shape [1, n] against a column of shape [m, 1], keeping no
   * trailing dimension: the pair at coordinate `c` of the [m, n] result is
   * element `c[1]` of the row with element `c[0]` of the column.
   */
  lemma {:induction false} OuterPair(a: Array, b: Array, c: seq<nat>)
    requires |a.shape| == 2 && a.shape[0] == 1 && |b.shape| == 2 && b.shape[1] == 1
    requires ValidTrailing(a.shape, b.shape, 0) && InBounds(c, ResultShape(a.shape, b.shape, 0))
    ensures RowMajor(c, ResultShape(a.shape, b.shape, 0)) < |Pairs(a, b, 0)|
    ensures c[1] < |a.data| && c[0] < |b.data|
    ensures Pairs(a, b, 0)[RowMajor(c, ResultShape(a.shape, b.shape, 0))] == ([a.data[c[1]]], [b.data[c[0]]])
  {
    OuterShapes(a, b);
    assert a.shape[2..] == [] && b.shape[2..] == [] && c + [] == c;
    PairAt(a, b, 0, c, []);
    SourceIndexRow(c, a.shape);
    SourceIndexColumn(c, b.shape);
    var ps, k := Pairs(a, b, 0), RowMajor(c, ResultShape(a.shape, b.shape, 0));
    var x, y := ps[k].0, ps[k].1;
    assert |x| == GetSliceLen(a.shape, 0) == 1 && |y| == GetSliceLen(b.shape, 0) == 1;
    assert x == [x[0]] && y == [y[0]];
  }

  /**
   * The iterator over a [1, 3] row and a [3, 1] column keeping no trailing
   * dimension yields the nine single-element pairs in row-major order of
   * the [3, 3] result: the row runs fastest.
   */
  lemma {:induction false} PairsKeepingNone(a: Array, b: Array)
    requires a == RawArray([1, 3], [1.0, 2.0, 3.0]) && b == RawArray([3, 1], [1.0, 2.0, 3.0])
    ensures ValidTrailing(a.shape, b.shape, 0)
    ensures Pairs(a, b, 0) == [([1.0], [1.0]), ([2.0], [1.0]), ([3.0], [1.0]),
                               ([1.0], [2.0]), ([2.0], [2.0]), ([3.0], [2.0]),
                               ([1.0], [3.0]), ([2.0], [3.0]), ([3.0], [3.0])]
  {
    OuterShapes(a, b);
    var r := ResultShape(a.shape, b.shape, 0);
    var ps := Pairs(a, b, 0);
    assert |ps| == Product(r) == 9;
    forall k | 0 <= k < 9
      ensures ps[k] == ([a.data[k % 3]], [b.data[k / 3]])
    {
      var c := Unrank(k, r);
      OuterPair(a, b, c);
      RowMajorPair(c, r);
    }
  }

  /**
   * An [m, 1, n] array against a [1, p, n] array, keeping the last dimension:
   * the pair at coordinate `c` of the [m, p] result is row `c[0]` of the
   * first array with row `c[1]` of the second.
   */
  lemma {:induction false} RowsPair(a: Array, b: Array, c: seq<nat>)
    requires |a.shape| == 3 && a.shape[1] == 1 && |b.shape| == 3 && b.shape[0] == 1 && a.shape[2] == b.shape[2]
    requires |c| == 2 && c[0] < a.shape[0] && c[1] < b.shape[1]
    ensures ValidTrailing(a.shape, b.shape, 1) && ResultShape(a.shape, b.shape, 1) == [a.shape[0], b.shape[1]]
    ensures RowMajor(c, ResultShape(a.shape, b.shape, 1)) == c[0] * b.shape[1] + c[1] < |Pairs(a, b, 1)|
    ensures var n := a.shape[2]; n * c[0] + n <= |a.data| && n * c[1] + n <= |b.data|
    ensures var n := a.shape[2];
      Pairs(a, b, 1)[RowMajor(c, ResultShape(a.shape, b.shape, 1))] == (a.data[n * c[0]..n * c[0] + n], b.data[n * c[1]..n * c[1] + n])
  {
    var n := a.shape[2];
    var s1, s2 := a.shape[..2], b.shape[..2];
    var r := [a.shape[0], b.shape[1]];
    RowsShapes(a.shape, b.shape, s1, s2, r);
    RowMajorPair(c, r);
    RowMajorBound(c, r);
    SlicePairAt(a, b, 1, RowMajor(c, r), c, s1, s2, n, n);
    RowsOffsets(c, s1, s2, n);
  }

  /** Shapes [m, 1, n] and [1, p, n] keeping the last dimension: leading shapes [m, 1] and [1, p], result [m, p], slices of `n`. */
  lemma {:induction false} RowsShapes(sa: seq<nat>, sb: seq<nat>, s1: seq<nat>, s2: seq<nat>, r: seq<nat>)
    requires |sa| == 3 && sa[1] == 1 && |sb| == 3 && sb[0] == 1 && sa[2] == sb[2] && 0 !in sa && 0 !in sb
    requires s1 == sa[..2] && s2 == sb[..2] && r == [sa[0], sb[1]]
    ensures ValidTrailing(sa, sb, 1) && ResultShape(sa, sb, 1) == r && 0 !in r
    ensures GetPaddedBroadcastShapes(sa, sb, 1) == (s1, s2)
    ensures GetSliceLen(sa, 1) == sa[2] && GetSliceLen(sb, 1) == sa[2]
  {
    LeadingShapes(sa, sb, 1, s1, s2);
    BroadcastOfSameRank(s1, s2, r);
    PadLeftSame(s1);
    PadLeftSame(s2);
    assert sa[2..] == sb[2..] == [sa[2]] && Product([sa[2]]) == sa[2] * Product([]);
  }

  /** At coordinate `c` of an [m, p] result the leading shapes [m, 1] and [1, p] read rows `c[0]` and `c[1]`. */
  lemma {:induction false} RowsOffsets(c: seq<nat>, s1: seq<nat>, s2: seq<nat>, n: nat)
    requires |c| == |s1| == |s2| == 2 && s1[1] == 1 && s2[0] == 1 && c[0] < s1[0] && c[1] < s2[1]
    ensures SliceIndex(c, s1, n) == n * c[0] && SliceIndex(c, s2, n) == n * c[1]
  {
    assert Clamp(c, s1) == [c[0], 0] && Clamp(c, s2) == [0, c[1]];
    RowMajorPair([c[0], 0], s1);
    RowMajorPair([0, c[1]], s2);
  }

  /**
   * The iterator over a [2, 1, 3] and a [1, 3, 3] array keeping the last
   * dimension yields six pairs of rows: each row of the first array with
   * each row of the second in turn, the second running fastest.
   */
  lemma {:induction false} PairsKeepingOne(a: Array, b: Array)
    requires a.shape == [2, 1, 3] && b.shape == [1, 3, 3]
    ensures ValidTrailing(a.shape, b.shape, 1) && |a.data| == 6 && |b.data| == 9 && |Pairs(a, b, 1)| == 6
    ensures forall k :: 0 <= k < 6 ==>
      Pairs(a, b, 1)[k] == (a.data[3 * (k / 3)..3 * (k / 3) + 3], b.data[3 * (k % 3)..3 * (k % 3) + 3])
  {
    PairCountKeepingOne();
    assert a.shape[0] == 2 && a.shape[2] == 3 && b.shape[1] == 3;
    forall k | 0 <= k < 6
      ensures Pairs(a, b, 1)[k] == (a.data[3 * (k / 3)..3 * (k / 3) + 3], b.data[3 * (k % 3)..3 * (k % 3) + 3])
    {
      var i, j := k / 3, k % 3;
      var c := [i, j];
      RowsPair(a, b, c);
      assert c[0] == i && c[1] == j && k == i * 3 + j;
    }
  }

  /**
   * The slice an operand contributes at the leading coordinate `cl`, read at
   * the trailing coordinate `ct`: the element broadcasting maps `cl + ct` to.
   */
  lemma {:induction false} OperandAt(a: Array, t: nat, cl: seq<nat>, ct: seq<nat>)
    requires t <= |a.shape| && |a.shape| - t <= |cl|
    requires InBounds(ct, a.shape[|a.shape| - t..])
    ensures var j := RowMajor(ct, a.shape[|a.shape| - t..]);
      j < |OperandSlice(a, t, cl)| && OperandSlice(a, t, cl)[j] == a.data[SourceIndex(cl + ct, a.shape)]
  {
    var s := PadLeft(a.shape[..|a.shape| - t], |cl|);
    RowMajorBound(ct, a.shape[|a.shape| - t..]);
    OperandSliceAt(a, t, cl, s, GetSliceLen(a.shape, t));
    SourceIndexSplit(a, t, cl, ct);
  }

  /** A coordinate of `lead + tail` is a coordinate of `lead` followed by one of `tail`. */
  lemma {:induction false} CoordinateSplit(c: seq<nat>, lead: seq<nat>, tail: seq<nat>) returns (cl: seq<nat>, ct: seq<nat>)
    requires InBounds(c, lead + tail)
    ensures c == cl + ct && InBounds(cl, lead) && InBounds(ct, tail)
    ensures RowMajor(c, lead + tail) == RowMajor(cl, lead) * Product(tail) + RowMajor(ct, tail)
  {
    cl, ct := c[..|lead|], c[|lead|..];
    assert c == cl + ct;
    forall i | 0 <= i < |tail|
      ensures ct[i] < tail[i]
    {
      assert ct[i] == c[|lead| + i] && (lead + tail)[|lead| + i] == tail[i];
    }
    forall i | 0 <= i < |lead|
      ensures cl[i] < lead[i]
    {
      assert cl[i] == c[i] && (lead + tail)[i] == lead[i];
    }
    RowMajorAppend(cl, ct, lead, tail);
  }

  /** Shapes [2, 2, 2] and [2, 4] do not broadcast: their last dimensions are 2 and 4. */
  lemma {:induction false} ElementwiseWrongShape(a1: Array, a2: Array, f: (real, real) -> real)
    requires a1.shape == [2, 2, 2] && a2.shape == [2, 4]
    ensures ElementwiseSpec(a1, a2, f) == Err(ShapeError)
  {
    assert !DimsCompatible(PaddedDim(a1.shape, 3, 2), PaddedDim(a2.shape, 3, 2));
  }

  /** Writes `f` applied to the pairs of `x` and `y` into `buff[off..off + |x|]`; the innermost loop. */
  method WriteZip(buff: array<real>, off: nat, x: seq<real>, y: seq<real>, f: (real, real) -> real)
    requires |x| == |y| && off + |x| <= buff.Length
    modifies buff
    ensures buff[..off] == old(buff[..off]) && buff[off + |x|..] == old(buff[off + |x|..])
    ensures buff[off..off + |x|] == Zip(f, (x, y))
  {
    for j := 0 to |x|
      invariant buff[..off] == old(buff[..off]) && buff[off + |x|..] == old(buff[off + |x|..])
      invariant forall q :: off <= q < off + j ==> buff[q] == f(x[q - off], y[q - off])
    {
      buff[off + j] := f(x[j], y[j]);
    }
    assert buff[off..off + |x|] == Zip(f, (x, y));
  }


  lemma {:induction false} PrefixSplit(s: seq<real>, a: nat, b: nat)
    requires a <= b <= |s|
    ensures s[..b] == s[..a] + s[a..b]
  {
  }

  /**
   * Fills `buff`, which holds one element per coordinate of the broadcast
   * shape `shape`, with the combination of `a1` and `a2` by `f`: block `i`
   * of `buff` receives the `i`-th pair of slices combined pairwise.
   */
  method ComputeElementwiseWithOtherArrayOnMemBuffer(a1: Array, a2: Array, f: (real, real) -> real,
                                                     shape: seq<nat>, buff: array<real>)
    requires Compatible(a1.shape, a2.shape) && shape == GetShapeAfterBroadcast(a1.shape, a2.shape).value
    requires buff.Length == Product(shape)
    modifies buff
    ensures ElementwiseSpec(a1, a2, f).Ok? && buff[..] == ElementwiseSpec(a1, a2, f).value.data
  {
    var t := CountTrailingDims(a1.shape, a2.shape);
    var sliceLen := Product(shape[|shape| - t..]);
    ElementwiseLayout(a1, a2, t, shape);
    var created := BroadcastIterator.Create(a1, a2, t);
    FillBlocks(created.value, a1, a2, t, f, sliceLen, Pairs(a1, a2, t), buff);
  }

  /**
   * Block `i` of `buff` receives the `i`-th pair of slices the fresh
   * iterator `it` yields, combined pairwise by `f`.
   */
  method FillBlocks(it: BroadcastIterator, a1: Array, a2: Array, t: nat, f: (real, real) -> real,
                    sliceLen: nat, ghost ps: seq<(seq<real>, seq<real>)>, buff: array<real>)
    requires it.Built() && it.Valid() && it.count == 0
    requires it.operand1 == a1 && it.operand2 == a2 && it.trailingDims == t
    requires SharedTrailing(a1, a2, t) && ps == Pairs(a1, a2, t) && sliceLen == GetSliceLen(a1.shape, t)
    requires buff.Length == |ps| * sliceLen
    modifies it, buff
    ensures buff[..] == ZipAll(f, ps, sliceLen, |ps|)
  {
    var i: nat, off: nat := 0, 0;
    FillStart(it, a1, a2, t, f, sliceLen, ps, buff);
    var more := true;
    // The state is kept as one fact (`== true`), checked whole rather than conjunct by conjunct.
    while more
      invariant Filling(it, a1, a2, t, f, sliceLen, ps, buff, i, off) == true
      invariant !more ==> i == |ps|
      decreases |ps| - i, more
    {
      more := FillNext(it, a1, a2, t, f, sliceLen, ps, buff, i, off);
      if more {
        i, off := i + 1, off + sliceLen;
      }
    }
    FilledAll(buff, f, ps, sliceLen, off);
  }

  /** The state of the block loop after `i` blocks, which end at `off`. */
  ghost predicate Filling(it: BroadcastIterator, a1: Array, a2: Array, t: nat, f: (real, real) -> real,
                          len: nat, ps: seq<(seq<real>, seq<real>)>, buff: array<real>, i: nat, off: nat)
    reads it, buff
  {
    it.Built() && it.Valid() && it.operand1 == a1 && it.operand2 == a2 && it.trailingDims == t
    && ValidTrailing(a1.shape, a2.shape, t) && ps == Pairs(a1, a2, t)
    && i == it.count <= |ps| && buff.Length == |ps| * len && Filled(buff, f, ps, len, i, off)
  }

  /** Before the first pass, no block is written. */
  lemma FillStart(it: BroadcastIterator, a1: Array, a2: Array, t: nat, f: (real, real) -> real,
                  len: nat, ps: seq<(seq<real>, seq<real>)>, buff: array<real>)
    requires it.Built() && it.Valid() && it.count == 0
    requires it.operand1 == a1 && it.operand2 == a2 && it.trailingDims == t
    requires SharedTrailing(a1, a2, t) && ps == Pairs(a1, a2, t) && len == GetSliceLen(a1.shape, t)
    requires buff.Length == |ps| * len
    ensures Filling(it, a1, a2, t, f, len, ps, buff, 0, 0)
  {
    SharedPairs(a1, a2, t);
    assert buff[..0] == [];
  }

  /** One pass of the block loop: takes the iterator's next pair, if any, and writes it as block `i`. */
  method FillNext(it: BroadcastIterator, a1: Array, a2: Array, t: nat, f: (real, real) -> real,
                  len: nat, ghost ps: seq<(seq<real>, seq<real>)>, buff: array<real>, i: nat, off: nat)
      returns (more: bool)
    requires Filling(it, a1, a2, t, f, len, ps, buff, i, off)
    modifies it, buff
    ensures more ==> i < |ps| && Filling(it, a1, a2, t, f, len, ps, buff, i + 1, off + len)
    ensures !more ==> i == |ps| && Filling(it, a1, a2, t, f, len, ps, buff, i, off)
  {
    var pair := NextPair(it, a1, a2, t, ps);
    if pair.None? {
      return false;
    }
    WriteBlock(buff, f, ps, len, i, off, pair.value);
    return true;
  }

  /** Once every pair is written, the buffer is full. */
  lemma {:induction false} FilledAll(buff: array<real>, f: (real, real) -> real, ps: seq<(seq<real>, seq<real>)>,
                                     len: nat, off: nat)
    requires buff.Length == |ps| * len && Filled(buff, f, ps, len, |ps|, off)
    ensures buff[..] == ZipAll(f, ps, len, |ps|)
  {
    ZipAllLength(f, ps, len, |ps|);
    assert buff[..] == buff[..off];
  }

  /** The first `i` blocks of `buff`, which end at `off`, hold the first `i` pairs combined by `f`. */
  ghost predicate Filled(buff: array<real>, f: (real, real) -> real, ps: seq<(seq<real>, seq<real>)>,
                         len: nat, i: nat, off: nat)
    reads buff
  {
    PairsOfLength(ps, len) && i <= |ps| && off <= buff.Length && buff[..off] == ZipAll(f, ps, len, i)
  }

  /**
   * Writes block `i`, the pair `p == ps[i]` combined by `f`, after the first
   * `i` blocks already in `buff`.
   */
  method WriteBlock(buff: array<real>, f: (real, real) -> real, ghost ps: seq<(seq<real>, seq<real>)>,
                    len: nat, i: nat, off: nat, p: (seq<real>, seq<real>))
    requires i < |ps| && p == ps[i]
    requires buff.Length == |ps| * len && Filled(buff, f, ps, len, i, off)
    modifies buff
    ensures Filled(buff, f, ps, len, i + 1, off + len)
  {
    ZipAllLength(f, ps, len, i);
    BlockEnd(i, |ps|, len);
    WriteZip(buff, off, p.0, p.1, f);
    PrefixSplit(buff[..], off, off + len);
    assert ZipAll(f, ps, len, i + 1) == ZipAll(f, ps, len, i) + Zip(f, ps[i]);
  }

  /** Combines two arrays with `f` under broadcasting; fails when the shapes do not broadcast. */
  method ComputeElementwiseWithOtherArray(a1: Array, a2: Array, f: (real, real) -> real) returns (r: Result<Array>)
    ensures r == ElementwiseSpec(a1, a2, f)
  {
    var shape :- GetShapeAfterBroadcast(a1.shape, a2.shape);
    var buff := new real[Product(shape)](_ => 0.0);
    ComputeElementwiseWithOtherArrayOnMemBuffer(a1, a2, f, shape, buff);
    return Ok(RawArray(shape, buff[..]));
  }
}
