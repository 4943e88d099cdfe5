/**
 * Read-only views of an array through one slice per dimension, and their
 * conversion back to an array.
 *
 * `to_array` walks the buffer in row-major order with an odometer over the
 * coordinates and keeps the elements whose every coordinate lies in its
 * dimension's slice. The new shape has one entry per non-index slice.
 */
module ArrayViews {
  import opened Outcomes
  import opened Arith
  import opened Layout
  import opened ArrayCore
  import opened Broadcast

  /** A slice of one dimension: `a..b`, `a..`, `..b`, `..` or a single index. */
  datatype Slice =
    | Range(start: nat, end: nat)
    | RangeFrom(start: nat)
    | RangeTo(end: nat)
    | RangeFull
    | Index(at: nat)

  /** The buffer and shape of an array, seen through a list of slices. */
  datatype ArrayView = ArrayView(data: seq<real>, index: seq<Slice>, shape: seq<nat>)

  /** A view over a well-formed array with one slice per dimension, as `S` builds it. */
  predicate ViewOfArray(v: ArrayView)
  {
    0 !in v.shape && |v.data| == Product(v.shape) && |v.index| == |v.shape|
  }

  /**
   * `s`: fails when the slice list does not have one slice per dimension or a
   * single index is out of range; otherwise views the array's own buffer.
   */
  function S(a: Array, index: seq<Slice>): (r: Result<ArrayView>)
    ensures r.Ok? <==> |index| == |a.shape| && forall i :: 0 <= i < |index| && index[i].Index? ==> index[i].at < a.shape[i]
    ensures r.Err? ==> r.error == if |index| != |a.shape| then ShapeError else IndexOutOfBounds
    ensures r.Ok? ==> r.value.data == a.data && r.value.shape == a.shape && r.value.index == index && ViewOfArray(r.value)
  {
    if |index| != |a.shape| then Err(ShapeError)
    else if exists i :: 0 <= i < |index| && index[i].Index? && index[i].at >= a.shape[i] then Err(IndexOutOfBounds)
    else Ok(ArrayView(a.data, index, a.shape))
  }

  /** Whether coordinate `x` lies in slice `sl`. */
  predicate Matches(sl: Slice, x: nat)
  {
    match sl
    case Range(a, b) => a <= x < b
    case RangeFrom(a) => a <= x
    case RangeTo(b) => x < b
    case RangeFull => true
    case Index(i) => x == i
  }

  /** Whether every coordinate of `c` lies in its dimension's slice. */
  predicate AllMatch(index: seq<Slice>, c: seq<nat>)
    requires |c| == |index|
  {
    forall i :: 0 <= i < |index| ==> Matches(index[i], c[i])
  }

  /**
   * The entry a slice adds to the new shape: none for a single index, the
   * length of the range otherwise; a range whose end precedes its start (or
   * starts past the dimension) underflows.
   */
  function SliceDim(sl: Slice, dim: nat): (r: Result<Option<nat>>)
    ensures r.Err? <==> (sl.Range? && sl.end < sl.start) || (sl.RangeFrom? && dim < sl.start)
    ensures r.Ok? ==> (r.value.None? <==> sl.Index?)
  {
    match sl
    case Range(a, b) => if b < a then Err(Underflow) else Ok(Some(b - a))
    case RangeTo(b) => Ok(Some(b))
    case RangeFrom(a) => if dim < a then Err(Underflow) else Ok(Some(dim - a))
    case RangeFull => Ok(Some(dim))
    case Index(_) => Ok(None)
  }

  /** The shape entries the first `n` slices add. */
  function SliceDims(index: seq<Slice>, shape: seq<nat>, n: nat): (r: Result<seq<nat>>)
    requires n <= |index| == |shape|
    ensures r.Ok? ==> |r.value| <= n
  {
    if n == 0 then Ok([])
    else
      var prev :- SliceDims(index, shape, n - 1);
      var d :- SliceDim(index[n - 1], shape[n - 1]);
      Ok(if d.Some? then prev + [d.value] else prev)
  }

  /** The shape of the view's array: the slices' entries, or `[1]` when every slice is an index. */
  function NewShape(index: seq<Slice>, shape: seq<nat>): (r: Result<seq<nat>>)
    requires |index| == |shape|
    ensures r.Ok? ==> |r.value| > 0
    ensures r.Ok? && (forall i :: 0 <= i < |index| ==> index[i].Index?) ==> r.value == [1]
  {
    var dims :- SliceDims(index, shape, |index|);
    if forall i :: 0 <= i < |index| ==> index[i].Index? then
      AllIndexNoDims(index, shape, |index|);
      Ok([1])
    else if dims == [] then Ok([1])
    else Ok(dims)
  }

  /** Slices that are all single indices add no entries. */
  lemma {:induction false} AllIndexNoDims(index: seq<Slice>, shape: seq<nat>, n: nat)
    requires n <= |index| == |shape|
    requires forall i :: 0 <= i < n ==> index[i].Index?
    ensures SliceDims(index, shape, n) == Ok([])
  {
    if n > 0 {
      AllIndexNoDims(index, shape, n - 1);
    }
  }

  /** Whether the slices select the element at buffer position `k`. */
  predicate Selected(v: ArrayView, k: nat)
    requires ViewOfArray(v) && k < |v.data|
  {
    AllMatch(v.index, Unrank(k, v.shape))
  }

  /** For each buffer position, whether the slices select it. */
  function Mask(v: ArrayView): (mask: seq<bool>)
    requires ViewOfArray(v)
    ensures |mask| == |v.data|
    ensures forall k :: 0 <= k < |v.data| ==> (mask[k] <==> Selected(v, k))
  {
    seq(|v.data|, k requires 0 <= k < |v.data| => Selected(v, k))
  }

  /** The elements among the first `n` whose mask entry is set, in buffer order. */
  function Filter(data: seq<real>, mask: seq<bool>, n: nat): (kept: seq<real>)
    requires n <= |data| == |mask|
    ensures |kept| <= n
  {
    if n == 0 then []
    else Filter(data, mask, n - 1) + (if mask[n - 1] then [data[n - 1]] else [])
  }

  /** The elements of the first `n` buffer positions whose coordinates the slices select. */
  function Kept(v: ArrayView, n: nat): seq<real>
    requires ViewOfArray(v) && n <= |v.data|
  {
    Filter(v.data, Mask(v), n)
  }

  /** One more buffer position is kept exactly when its coordinate lies in every slice. */
  lemma KeptStep(v: ArrayView, p: nat, isIn: bool)
    requires ViewOfArray(v) && p < |v.data| && isIn == AllMatch(v.index, Unrank(p, v.shape))
    ensures Kept(v, p + 1) == Kept(v, p) + (if isIn then [v.data[p]] else [])
  {
    assert Mask(v)[p] == isIn;
  }

  /**
   * `to_array`: the new shape (failing on an underflowing range), the kept
   * elements (failing on a rank-0 array, whose odometer has no last entry
   * to step), and an array over them (failing when their number is not the product of
   * the new shape, or the new shape has a zero entry).
   */
  function ToArraySpec(v: ArrayView): (r: Result<Array>)
    requires ViewOfArray(v)
    ensures r.Ok? <==> NewShape(v.index, v.shape).Ok? && |v.shape| > 0 &&
                       FromVec(Kept(v, |v.data|), NewShape(v.index, v.shape).value).Ok?
    ensures r.Ok? ==> r.value.shape == NewShape(v.index, v.shape).value && r.value.data == Kept(v, |v.data|)
  {
    var shape :- NewShape(v.index, v.shape);
    if |v.shape| == 0 then Err(Underflow)
    else FromVec(Kept(v, |v.data|), shape)
  }

  // The loops of `to_array`.

  /** Once a slice underflows, the whole new shape does. */
  lemma {:induction false} SliceDimsUnderflow(index: seq<Slice>, shape: seq<nat>, i: nat, n: nat)
    requires i < n <= |index| == |shape|
    requires SliceDims(index, shape, i).Ok? && SliceDim(index[i], shape[i]) == Err(Underflow)
    ensures SliceDims(index, shape, n) == Err(Underflow)
  {
    if n > i + 1 {
      SliceDimsUnderflow(index, shape, i, n - 1);
    }
  }

  /** The new shape, one slice at a time. */
  method GetNewShape(index: seq<Slice>, shape: seq<nat>) returns (r: Result<seq<nat>>)
    requires |index| == |shape|
    ensures r == NewShape(index, shape)
  {
    var newShape: seq<nat> := [];
    for i := 0 to |index|
      invariant SliceDims(index, shape, i) == Ok(newShape)
    {
      match index[i] {
        case Index(_) =>
        case Range(a, b) =>
          if b < a {
            SliceDimsUnderflow(index, shape, i, |index|);
            return Err(Underflow);
          }
          newShape := newShape + [b - a];
        case RangeTo(b) =>
          newShape := newShape + [b];
        case RangeFrom(a) =>
          if shape[i] < a {
            SliceDimsUnderflow(index, shape, i, |index|);
            return Err(Underflow);
          }
          newShape := newShape + [shape[i] - a];
        case RangeFull =>
          newShape := newShape + [shape[i]];
      }
    }
    if newShape == [] {
      newShape := [1];
      if !forall i :: 0 <= i < |index| ==> index[i].Index? {
        assert NewShape(index, shape) == Ok([1]);
      }
    } else if forall i :: 0 <= i < |index| ==> index[i].Index? {
      AllIndexNoDims(index, shape, |index|);
    }
    r := Ok(newShape);
  }

  /** Whether the coordinate lies in every slice, stopping at the first slice it misses. */
  method IsInIndex(c: seq<nat>, index: seq<Slice>) returns (isIn: bool)
    requires |c| == |index|
    ensures isIn == AllMatch(index, c)
  {
    isIn := true;
    var i := 0;
    while i < |c|
      invariant 0 <= i <= |c|
      invariant isIn == forall j :: 0 <= j < i ==> Matches(index[j], c[j])
    {
      isIn := isIn && Matches(index[i], c[i]);
      if !isIn {
        break;
      }
      i := i + 1;
    }
  }

  /**
   * The odometer of `to_array`: add one to the last coordinate, then carry
   * from the last dimension towards the first. The first coordinate is never
   * reset, so the step after the last element runs past the end.
   */
  method AdvanceIndex(c: seq<nat>, shape: seq<nat>) returns (next: seq<nat>)
    requires |c| == |shape| > 0 && InBounds(c, shape)
    ensures |next| == |shape| && RowMajor(next, shape) == RowMajor(c, shape) + 1
    ensures RowMajor(c, shape) + 1 < Product(shape) ==> InBounds(next, shape)
  {
    var m := |shape|;
    RowMajorBumpLast(c, shape);
    next := c[m - 1 := c[m - 1] + 1];
    var i := m;
    while i > 0
      invariant 0 <= i <= m && |next| == m
      invariant RowMajor(next, shape) == RowMajor(c, shape) + 1
      invariant forall j :: 0 <= j < m ==> next[j] <= shape[j]
      invariant forall j :: 0 <= j < i - 1 ==> next[j] < shape[j]
      invariant forall j :: i <= j < m && j > 0 ==> next[j] < shape[j]
    {
      i := i - 1;
      if next[i] == shape[i] && i != 0 {
        RowMajorCarry(next, shape, i);
        next := next[i := 0][i - 1 := next[i - 1] + 1];
      }
    }
    if next[0] == shape[0] {
      RowMajorPastEnd(next, shape);
    }
  }

  /** The odometer starts at the coordinate of offset 0. */
  lemma {:induction false} FirstCoordinate(shape: seq<nat>)
    requires 0 !in shape
    ensures Product(shape) > 0 && Unrank(0, shape) == seq(|shape|, _ => 0)
  {
    ProductPositive(shape);
    var z := seq(|shape|, _ => 0);
    RowMajorZeros(shape);
    assert InBounds(z, shape);
    UnrankRowMajor(z, shape);
  }

  /** After one odometer step from the coordinate of offset `p`, the coordinate is that of `p + 1`. */
  lemma NextCoordinateIsNext(shape: seq<nat>, p: nat, c: seq<nat>, next: seq<nat>)
    requires 0 !in shape && p + 1 < Product(shape)
    requires c == Unrank(p, shape) && |next| == |shape|
    requires RowMajor(next, shape) == RowMajor(c, shape) + 1 && InBounds(next, shape)
    ensures next == Unrank(p + 1, shape)
  {
    UnrankRowMajor(next, shape);
  }

  /** `to_array`: one pass over the buffer, keeping the selected elements. */
  method ToArray(v: ArrayView) returns (r: Result<Array>)
    requires ViewOfArray(v)
    ensures r == ToArraySpec(v)
  {
    var data: seq<real> := [];
    var currIdx: seq<nat> := seq(|v.shape|, _ => 0);
    var shapeLen := |currIdx|;
    var newShape :- GetNewShape(v.index, v.shape);
    FirstCoordinate(v.shape);
    var p := 0;
    while p < |v.data|
      invariant p <= |v.data| && |currIdx| == |v.shape| == shapeLen
      invariant p < |v.data| ==> currIdx == Unrank(p, v.shape)
      invariant data == Kept(v, p)
      invariant p > 0 ==> shapeLen > 0
    {
      var isIn := IsInIndex(currIdx, v.index);
      KeptStep(v, p, isIn);
      if isIn {
        data := data + [v.data[p]];
      }
      if shapeLen == 0 {
        return Err(Underflow);
      }
      var next := AdvanceIndex(currIdx, v.shape);
      if p + 1 < |v.data| {
        NextCoordinateIsNext(v.shape, p, currIdx, next);
      }
      currIdx := next;
      p := p + 1;
    }
    ProductPositive(v.shape);
    r := FromVec(data, newShape);
  }

  // What `to_array` keeps.

  /** The positions among the first `n` whose mask entry is set, in increasing order. */
  function MaskPositions(mask: seq<bool>, n: nat): seq<nat>
    requires n <= |mask|
  {
    if n == 0 then []
    else MaskPositions(mask, n - 1) + (if mask[n - 1] then [n - 1] else [])
  }

  /** `kept` lists the elements at positions `pos`, each below `n` with its mask entry set. */
  predicate ListsSelected(data: seq<real>, mask: seq<bool>, n: nat, pos: seq<nat>, kept: seq<real>)
    requires n <= |data| == |mask|
  {
    |pos| == |kept| && forall j :: 0 <= j < |pos| ==> pos[j] < n && kept[j] == data[pos[j]] && mask[pos[j]]
  }

  /** The positions are strictly increasing. */
  predicate Increasing(pos: seq<nat>)
  {
    forall j, l :: 0 <= j < l < |pos| ==> pos[j] < pos[l]
  }

  /** Every position below `n` whose mask entry is set is listed. */
  predicate Complete(mask: seq<bool>, n: nat, pos: seq<nat>)
    requires n <= |mask|
  {
    forall k :: 0 <= k < n && mask[k] ==> k in pos
  }

  /**
   * `kept` lists the elements at positions `pos`, in increasing order, and
   * the positions are exactly those below `n` whose mask entry is set.
   */
  predicate SelectsInOrder(data: seq<real>, mask: seq<bool>, n: nat, pos: seq<nat>, kept: seq<real>)
    requires n <= |data| == |mask|
  {
    ListsSelected(data, mask, n, pos, kept) && Increasing(pos) && Complete(mask, n, pos)
  }

  lemma ListsStep(data: seq<real>, mask: seq<bool>, n: nat, pos: seq<nat>, kept: seq<real>)
    requires n < |data| == |mask| && ListsSelected(data, mask, n, pos, kept)
    ensures ListsSelected(data, mask, n + 1, pos + (if mask[n] then [n] else []), kept + (if mask[n] then [data[n]] else []))
  {
    var pos', kept' := pos + (if mask[n] then [n] else []), kept + (if mask[n] then [data[n]] else []);
    forall j | 0 <= j < |pos'|
      ensures pos'[j] < n + 1 && kept'[j] == data[pos'[j]] && mask[pos'[j]]
    {
      if j < |pos| {
        assert pos'[j] == pos[j] && kept'[j] == kept[j];
      }
    }
  }

  lemma IncreasingStep(n: nat, pos: seq<nat>, b: bool)
    requires Increasing(pos) && forall j :: 0 <= j < |pos| ==> pos[j] < n
    ensures Increasing(pos + (if b then [n] else []))
  {
  }

  lemma CompleteStep(mask: seq<bool>, n: nat, pos: seq<nat>)
    requires n < |mask| && Complete(mask, n, pos)
    ensures Complete(mask, n + 1, pos + (if mask[n] then [n] else []))
  {
    var pos' := pos + (if mask[n] then [n] else []);
    forall k | 0 <= k < n + 1 && mask[k]
      ensures k in pos'
    {
      if k < n {
        assert k in pos;
      } else {
        assert pos'[|pos|] == n;
      }
    }
  }

  /** One more position: appended exactly when its mask entry is set. */
  lemma SelectsStep(data: seq<real>, mask: seq<bool>, n: nat)
    requires n < |data| == |mask|
    requires SelectsInOrder(data, mask, n, MaskPositions(mask, n), Filter(data, mask, n))
    ensures SelectsInOrder(data, mask, n + 1, MaskPositions(mask, n + 1), Filter(data, mask, n + 1))
  {
    var pos, kept := MaskPositions(mask, n), Filter(data, mask, n);
    assert MaskPositions(mask, n + 1) == pos + (if mask[n] then [n] else []);
    assert Filter(data, mask, n + 1) == kept + (if mask[n] then [data[n]] else []);
    ListsStep(data, mask, n, pos, kept);
    IncreasingStep(n, pos, mask[n]);
    CompleteStep(mask, n, pos);
  }

  /**
   * An element is kept exactly when its mask entry is set, and the kept
   * elements appear in their original order.
   */
  lemma {:induction false} FilterInOrder(data: seq<real>, mask: seq<bool>, n: nat)
    requires n <= |data| == |mask|
    ensures SelectsInOrder(data, mask, n, MaskPositions(mask, n), Filter(data, mask, n))
  {
    if n > 0 {
      FilterInOrder(data, mask, n - 1);
      SelectsStep(data, mask, n - 1);
    }
  }

  /** The array the view selects holds exactly the elements whose coordinates lie in every slice. */
  lemma ToArrayKeeps(v: ArrayView)
    requires ViewOfArray(v) && ToArraySpec(v).Ok?
    ensures forall x :: x in ToArraySpec(v).value.data <==>
              exists k :: 0 <= k < |v.data| && Selected(v, k) && v.data[k] == x
  {
    var mask := Mask(v);
    var pos, kept := MaskPositions(mask, |v.data|), Kept(v, |v.data|);
    FilterInOrder(v.data, mask, |v.data|);
    assert ToArraySpec(v).value.data == kept;
    forall x | x in kept
      ensures exists k :: 0 <= k < |v.data| && Selected(v, k) && v.data[k] == x
    {
      var j :| 0 <= j < |kept| && kept[j] == x;
      assert v.data[pos[j]] == x;
    }
    forall k | 0 <= k < |v.data| && Selected(v, k)
      ensures v.data[k] in kept
    {
      var j :| 0 <= j < |pos| && pos[j] == k;
      assert kept[j] == v.data[k];
    }
  }

  // Selecting one row of a matrix.

  /** The coordinate of offset `k` in a matrix is its row and column. */
  lemma {:induction false} UnrankMatrix(k: nat, rows: nat, cols: nat)
    requires rows > 0 && cols > 0 && k < Product([rows, cols])
    ensures Unrank(k, [rows, cols]) == [k / cols, k % cols]
  {
    var s := [rows, cols];
    assert s[1..] == [cols] && [cols][1..] == [];
    assert Product([cols]) == cols * Product([]) == cols;
    DivMod(k, cols);
    assert Unrank(k % cols, [cols]) == [k % cols] + Unrank(0, []);
  }

  /** Offset `k` lies in row `i` exactly when it is within that row's block. */
  lemma {:induction false} InRow(k: nat, i: nat, cols: nat, lo: nat)
    requires cols > 0 && lo == i * cols
    ensures k / cols == i <==> lo <= k < lo + cols
  {
    DivMod(k, cols);
    if k / cols < i {
      MulLeft(k / cols + 1, i, cols);
      MulDistrib(k / cols, 1, cols);
    } else if k / cols > i {
      MulLeft(i + 1, k / cols, cols);
      MulDistrib(i, 1, cols);
    }
    MulDistrib(i, 1, cols);
  }

  /** In a `[i, ..]` view of a matrix, exactly the offsets of row `i` are selected. */
  lemma RowMatch(v: ArrayView, i: nat, rows: nat, cols: nat, lo: nat, k: nat)
    requires ViewOfArray(v) && v.index == [Index(i), RangeFull] && v.shape == [rows, cols]
    requires lo == i * cols && k < |v.data|
    ensures Selected(v, k) <==> lo <= k < lo + cols
  {
    UnrankMatrix(k, rows, cols);
    InRow(k, i, cols, lo);
    var c := Unrank(k, v.shape);
    assert AllMatch(v.index, c) <==> c[0] == i;
  }

  /** When the set mask entries are one block `[lo, lo + len)`, the first `n` positions keep the part of that block before `n`. */
  lemma {:induction false} FilterBlock(data: seq<real>, mask: seq<bool>, lo: nat, len: nat, n: nat)
    requires lo + len <= |data| == |mask| && n <= |data|
    requires forall k :: 0 <= k < |mask| ==> (mask[k] <==> lo <= k < lo + len)
    ensures Filter(data, mask, n) == if n <= lo then [] else data[lo..if n <= lo + len then n else lo + len]
  {
    if n > 0 {
      FilterBlock(data, mask, lo, len, n - 1);
      var before := Filter(data, mask, n - 1);
      if n - 1 < lo {
        assert Filter(data, mask, n) == before == [];
      } else if n - 1 < lo + len {
        assert Filter(data, mask, n) == before + [data[n - 1]];
        assert before + [data[n - 1]] == data[lo..n];
      } else {
        assert Filter(data, mask, n) == before;
      }
    }
  }

  /** Row `i` of a matrix: its block of `cols` consecutive elements. */
  function Row(a: Array, i: nat): (row: seq<real>)
    requires |a.shape| == 2 && i < a.shape[0]
    ensures |row| == a.shape[1]
  {
    ProductOfTwo(a.shape[0], a.shape[1]);
    assert a.shape == [a.shape[0], a.shape[1]];
    BlockEnd(i, a.shape[0], a.shape[1]);
    var lo: nat := i * a.shape[1];
    a.data[lo..lo + a.shape[1]]
  }

  /** A row index within the matrix makes a valid view whose new shape is the row length. */
  lemma RowView(a: Array, i: nat)
    requires |a.shape| == 2 && i < a.shape[0]
    ensures S(a, [Index(i), RangeFull]) == Ok(ArrayView(a.data, [Index(i), RangeFull], a.shape))
    ensures NewShape([Index(i), RangeFull], a.shape) == Ok([a.shape[1]])
  {
    var index := [Index(i), RangeFull];
    assert SliceDims(index, a.shape, 1) == Ok([]);
    assert SliceDim(index[1], a.shape[1]) == Ok(Some(a.shape[1]));
    assert [] + [a.shape[1]] == [a.shape[1]];
    assert SliceDims(index, a.shape, 2) == Ok([a.shape[1]]);
    assert !index[1].Index?;
  }

  /** The elements a `[i, ..]` view keeps are row `i`. */
  lemma RowKept(a: Array, i: nat, v: ArrayView)
    requires |a.shape| == 2 && i < a.shape[0]
    requires v == ArrayView(a.data, [Index(i), RangeFull], a.shape) && ViewOfArray(v)
    ensures Kept(v, |v.data|) == Row(a, i)
  {
    var rows, cols := a.shape[0], a.shape[1];
    assert a.shape == [rows, cols];
    ProductOfTwo(rows, cols);
    BlockEnd(i, rows, cols);
    var lo: nat := i * cols;
    var mask := Mask(v);
    forall k | 0 <= k < |mask|
      ensures mask[k] <==> lo <= k < lo + cols
    {
      RowMatch(v, i, rows, cols, lo, k);
    }
    FilterBlock(v.data, mask, lo, cols, |a.data|);
  }

  /** Viewing a matrix through `[i, ..]` for an existing row `i` gives that row as a vector. */
  lemma ToArrayRow(a: Array, i: nat)
    requires |a.shape| == 2 && i < a.shape[0]
    ensures S(a, [Index(i), RangeFull]).Ok?
    ensures ToArraySpec(S(a, [Index(i), RangeFull]).value) == Ok(RawArray([a.shape[1]], Row(a, i)))
  {
    RowView(a, i);
    var v := ArrayView(a.data, [Index(i), RangeFull], a.shape);
    RowKept(a, i, v);
    assert Product([a.shape[1]]) == a.shape[1] * Product([]);
  }

  /** The first row of a 2 by 4 matrix holding 1 to 8 is 1, 2, 3, 4. */
  lemma ToArrayFirstRowExample(a: Array)
    requires a.shape == [2, 4] && a.data == [1.0, 2.0, 3.0, 4.0, 5.0, 6.0, 7.0, 8.0]
    ensures S(a, [Index(0), RangeFull]).Ok?
    ensures ToArraySpec(S(a, [Index(0), RangeFull]).value) == Ok(RawArray([4], [1.0, 2.0, 3.0, 4.0]))
  {
    ToArrayRow(a, 0);
    assert Row(a, 0) == a.data[0..4] == [1.0, 2.0, 3.0, 4.0];
  }

  /**
   * A view whose new shape holds more elements than the whole buffer cannot
   * keep enough of them, so building its array fails.
   */
  lemma ToArrayTooFew(v: ArrayView)
    requires ViewOfArray(v) && |v.shape| > 0 && NewShape(v.index, v.shape).Ok?
    requires Product(NewShape(v.index, v.shape).value) > |v.data|
    ensures ToArraySpec(v) == Err(ShapeError)
  {
    assert |Filter(v.data, Mask(v), |v.data|)| <= |v.data|;
  }

  /** Slicing a 3-vector with `..5` asks for 5 elements and fails. */
  lemma ToArrayRangeToPastEnd(a: Array)
    requires a.shape == [3]
    ensures S(a, [RangeTo(5)]).Ok?
    ensures ToArraySpec(S(a, [RangeTo(5)]).value) == Err(ShapeError)
  {
    var v := S(a, [RangeTo(5)]).value;
    assert SliceDims(v.index, v.shape, 0) == Ok([]);
    assert SliceDim(v.index[0], v.shape[0]) == Ok(Some(5));
    assert [] + [5] == [5];
    assert SliceDims(v.index, v.shape, 1) == Ok([5]);
    assert Product([5]) == 5 * Product([]);
    assert Product([3]) == 3 * Product([]);
    ToArrayTooFew(v);
  }
}
