/**
 * The gradient scenarios of the tensor tests, worked out on the model.
 *
 * Each operator test builds variables `a` (all ones), `b` (all twos) and an
 * unrelated `c`, applies the operator to `a` and `b`, and asks `grad` for
 * the gradient with respect to each of the three. The lemmas here follow
 * the walk of `grad` edge by edge on those graphs and compute the gradients
 * the library returns, including one graph where a node reached along two
 * paths is expanded twice and its inputs receive its gradient twice.
 */
module GradientExamples {
  import opened Outcomes
  import opened Arith
  import opened Layout
  import opened Utils
  import opened ArrayCore
  import opened Elementwise
  import opened ArrayOps
  import opened Matmul
  import opened ArrayMatmul
  import opened Graph
  import opened Reduction
  import opened Gradients

  // Constant arrays.

  /** `Array::new(x, s)`: the array of shape `s` holding `x` everywhere. */
  function Const(x: real, s: seq<nat>): (a: Array)
    requires 0 !in s
    ensures a.shape == s && |a.data| == Product(s)
    ensures forall k :: 0 <= k < |a.data| ==> a.data[k] == x
  {
    New(x, s).value
  }

  /** An array holding `x` everywhere is the constant array of its shape. */
  lemma {:induction false} IsConst(a: Array, x: real)
    requires forall k :: 0 <= k < |a.data| ==> a.data[k] == x
    ensures a == Const(x, a.shape)
  {
    assert a.data == Const(x, a.shape).data;
  }

  /** Two constant arrays of one shape combine elementwise into the constant `f(x, y)`. */
  lemma {:induction false} ConstZip(x: real, y: real, s: seq<nat>, f: (real, real) -> real)
    requires 0 !in s
    ensures ElementwiseSpec(Const(x, s), Const(y, s), f) == Ok(Const(f(x, y), s))
  {
    var a, b := Const(x, s), Const(y, s);
    ElementwiseSameShape(a, b, f);
    var r := ElementwiseSpec(a, b, f).value;
    assert forall k :: 0 <= k < |r.data| ==> r.data[k] == f(a.data[k], b.data[k]);
    IsConst(r, f(x, y));
  }

  /** A constant array combined with a scalar `y` is the constant `f(x, y)`. */
  lemma {:induction false} ScalarConst(x: real, y: real, s: seq<nat>, f: (real, real) -> real)
    requires 0 !in s
    ensures ScalarResult(Const(x, s), y, f) == Const(f(x, y), s)
  {
    var r := ScalarResult(Const(x, s), y, f);
    assert forall k :: 0 <= k < |r.data| ==> r.data[k] == f(x, y);
    IsConst(r, f(x, y));
  }

  /** Two constant arrays of broadcast-compatible shapes combine into the constant `f(x, y)` of the broadcast shape. */
  lemma {:induction false} ConstBroadcast(x: real, y: real, s1: seq<nat>, s2: seq<nat>, f: (real, real) -> real)
    requires 0 !in s1 && 0 !in s2 && Compatible(s1, s2)
    ensures 0 !in GetShapeAfterBroadcast(s1, s2).value
    ensures ElementwiseSpec(Const(x, s1), Const(y, s2), f) == Ok(Const(f(x, y), GetShapeAfterBroadcast(s1, s2).value))
  {
    var a1, a2 := Const(x, s1), Const(y, s2);
    var r := ElementwiseSpec(a1, a2, f).value;
    BroadcastPositive(s1, s2);
    forall k | 0 <= k < |r.data|
      ensures r.data[k] == f(x, y)
    {
      var c := Unrank(k, r.shape);
      ElementwiseAt(a1, a2, f, c);
    }
    IsConst(r, f(x, y));
  }

  /** The sum of `n` products of `u` by `v` is `n * u * v`. */
  lemma {:induction false} ConstDot(x: seq<real>, y: seq<real>, n: nat, u: real, v: real)
    requires n <= |x| && n <= |y|
    requires forall k :: 0 <= k < n ==> x[k] == u
    requires forall k :: 0 <= k < n ==> y[k] == v
    ensures DotSeq(x, y, n) == (n as real) * (u * v)
    decreases n
  {
    if n > 0 {
      ConstDot(x, y, n - 1, u, v);
      assert DotSeq(x, y, n) == ((n - 1) as real) * (u * v) + u * v;
    }
  }

  /** A constant matrix transposes to the constant matrix of the swapped shape. */
  lemma {:induction false} ConstTranspose(x: real, rows: nat, cols: nat)
    requires rows > 0 && cols > 0
    ensures TransposeSpec(Const(x, [rows, cols])) == Ok(Const(x, [cols, rows]))
  {
    var a := Const(x, [rows, cols]);
    MatrixTranspose(a);
    var t := TransposeSpec(a).value;
    assert forall k :: 0 <= k < |t.data| ==> t.data[k] == a.data[TransposedSource(k, rows, cols)];
    IsConst(t, x);
  }

  /** Every dot product of a row of a constant matrix with a column of another is `n * x * y`. */
  lemma {:induction false} ConstDotAt(a: seq<real>, b: seq<real>, rows: nat, n: nat, cols: nat, x: real, y: real, i: nat, j: nat)
    requires Conformant(a, rows, n, b, cols) && i < rows && j < cols
    requires forall k :: 0 <= k < |a| ==> a[k] == x
    requires forall k :: 0 <= k < |b| ==> b[k] == y
    ensures Dot(a, rows, n, b, cols, i, j, n) == (n as real) * (x * y)
  {
    var row, col := Row(a, rows, n, i), Column(b, n, cols, j);
    BlockEnd(i, rows, n);
    var lo: nat := i * n;
    assert row == a[lo..lo + n];
    forall k | 0 <= k < n
      ensures row[k] == x
    {
      assert row[k] == a[lo + k];
    }
    forall k | 0 <= k < n
      ensures col[k] == y
    {
      BlockIndex(k, j, cols, n);
      var o: nat := k * cols + j;
      assert col[k] == b[o];
    }
    ConstDot(row, col, n, x, y);
  }

  /** Every entry of the product of two constant matrices is `n * x * y`. */
  lemma {:induction false} ConstProductAt(a: seq<real>, b: seq<real>, rows: nat, n: nat, cols: nat, x: real, y: real, q: nat)
    requires Conformant(a, rows, n, b, cols) && q < rows * cols
    requires forall k :: 0 <= k < |a| ==> a[k] == x
    requires forall k :: 0 <= k < |b| ==> b[k] == y
    ensures MatProduct(a, rows, n, b, cols)[q] == (n as real) * (x * y)
  {
    TransposedIndex(q, cols, rows);
    var i, j := q / cols, q % cols;
    ConstDotAt(a, b, rows, n, cols, x, y, i, j);
  }

  /** The product of two constant matrices holds `n * x * y` everywhere, `n` the inner dimension. */
  lemma {:induction false} ConstMatmul(x: real, y: real, rows: nat, n: nat, cols: nat, z: real)
    requires rows > 0 && n > 0 && cols > 0 && z == (n as real) * (x * y)
    ensures MatmulSpec(Const(x, [rows, n]), Const(y, [n, cols])) == Ok(Const(z, [rows, cols]))
  {
    var a, b := Const(x, [rows, n]), Const(y, [n, cols]);
    MatrixProduct(a, b);
    var p := MatmulSpec(a, b).value;
    forall q | 0 <= q < |p.data|
      ensures p.data[q] == z
    {
      ConstProductAt(a.data, b.data, rows, n, cols, x, y, q);
    }
    IsConst(p, z);
  }

  // The walk on the graph of an operator test.

  /** A test graph with the wrapper of node 3 appended: leaves at 0 and 1, the operator of 0 and 1 at 3. */
  predicate WrappedTest(w: Graph)
  {
    |w| == 5 && Acyclic(w) && w[0].Variable? && w[1].Variable?
    && IsBinary(w[3]) && w[3].x == 0 && w[3].y == 1 && w[4] == Wrapper(3)
  }

  /** The graph of an operator test: variables `a`, `b`, `c` at nodes 0, 1, 2 and `op` of nodes 0 and 1 at node 3. */
  function TestGraph(a: Array, b: Array, c: Array, op: Op): (g: Graph)
    requires IsBinary(op) && op.x == 0 && op.y == 1
    ensures |g| == 4 && g[0] == Variable(a) && g[1] == Variable(b) && g[2] == Variable(c) && g[3] == op
    ensures Acyclic(g) && WrappedTest(g + [Wrapper(3)])
  {
    var g := [Variable(a), Variable(b), Variable(c), op];
    WrappedAcyclic(g, 3);
    g
  }

  /** One step of the walk: the last edge `e` of `stack` is popped, its contribution accumulated and its node expanded. */
  lemma {:induction false} PopStep(w: Graph, target: nat, feed: Feed, stack: seq<Edge>, rest: seq<Edge>, e: Edge,
                                   accum: map<nat, Array>, contribution: Option<Array>, accum': map<nat, Array>, next: seq<Edge>)
    requires Acyclic(w) && OnGraph(w, stack) && stack == rest + [e] && e.parent in accum
    requires e.node < |w| && e.parent < |w| && OnGraph(w, rest)
    requires AccumGradSpec(w, e.parent, e.node, accum[e.parent], feed) == Ok(contribution)
    requires Accumulate(accum, e.node, contribution) == Ok(accum')
    requires Expand(w, target, rest, e.node) == next
    ensures Propagate(w, target, feed, stack, accum) == Propagate(w, target, feed, next, accum')
  {
    assert stack[|stack| - 1] == e && stack[..|stack| - 1] == rest;
  }

  /** The stack the walk starts from on a test graph: the edges of `a` and `b` to the wrapper. */
  lemma {:induction false} TestInitialStack(g: Graph)
    requires |g| == 4 && Acyclic(g) && IsBinary(g[3]) && g[3].x == 0 && g[3].y == 1
    ensures InitialStack(g, 3) == [Edge(0, 4), Edge(1, 4)]
  {
    var kids := Inputs(g[3]);
    assert kids == [0, 1];
    var st := InitialStack(g, 3);
    assert |st| == 2 && st[0] == Edge(kids[0], 4) && st[1] == Edge(kids[1], 4);
  }

  /** The variables of a test graph push nothing when popped. */
  lemma {:induction false} TestExpand(w: Graph, target: nat)
    requires WrappedTest(w)
    ensures Expand(w, target, [Edge(0, 4)], 1) == [Edge(0, 4)]
    ensures Expand(w, target, [], 0) == []
  {
    assert Inputs(w[0]) == [] && Inputs(w[1]) == [];
  }

  /** The wrapper of the operator answers with the operator's rule. */
  lemma {:induction false} TestWrapperRule(w: Graph, c: nat, seed: Array, feed: Feed)
    requires WrappedTest(w)
    ensures AccumGradSpec(w, 4, c, seed, feed) == BinaryGrad(w, 3, c, seed, feed)
  {
    assert AccumGradSpec(w, 4, c, seed, feed) == AccumGradSpec(w, 3, c, seed, feed);
  }

  /** The first step: the edge of node 1 is popped and node 1 takes its contribution; a leaf pushes nothing. */
  lemma {:induction false} TestWalkFirst(w: Graph, target: nat, feed: Feed, seed: Array, gy: Array)
    requires WrappedTest(w) && OnGraph(w, [Edge(0, 4), Edge(1, 4)]) && OnGraph(w, [Edge(0, 4)])
    requires BinaryGrad(w, 3, 1, seed, feed) == Ok(Some(gy))
    ensures Propagate(w, target, feed, [Edge(0, 4), Edge(1, 4)], map[4 := seed])
         == Propagate(w, target, feed, [Edge(0, 4)], map[4 := seed][1 := gy])
  {
    TestWrapperRule(w, 1, seed, feed);
    TestExpand(w, target);
    assert [Edge(0, 4)] + [Edge(1, 4)] == [Edge(0, 4), Edge(1, 4)];
    PopStep(w, target, feed, [Edge(0, 4), Edge(1, 4)], [Edge(0, 4)], Edge(1, 4), map[4 := seed], Some(gy), map[4 := seed][1 := gy], [Edge(0, 4)]);
  }

  /** The second step: the edge of node 0 is popped and node 0 takes its contribution; the stack is then empty. */
  lemma {:induction false} TestWalkSecond(w: Graph, target: nat, feed: Feed, seed: Array, gx: Array, gy: Array)
    requires WrappedTest(w) && OnGraph(w, [Edge(0, 4)]) && BinaryGrad(w, 3, 0, seed, feed) == Ok(Some(gx))
    ensures Propagate(w, target, feed, [Edge(0, 4)], map[4 := seed][1 := gy])
         == Ok(map[4 := seed][1 := gy][0 := gx])
  {
    var m1 := map[4 := seed][1 := gy];
    assert m1[4] == seed;
    TestWrapperRule(w, 0, seed, feed);
    TestExpand(w, target);
    assert [] + [Edge(0, 4)] == [Edge(0, 4)];
    PopStep(w, target, feed, [Edge(0, 4)], [], Edge(0, 4), m1, Some(gx), m1[0 := gx], []);
  }

  /** The whole walk on a test graph: node 1 and then node 0 take the contributions of the operator's rule. */
  lemma {:induction false} TestWalk(g: Graph, target: nat, feed: Feed, seed: Array, gx: Array, gy: Array)
    requires |g| == 4 && Acyclic(g) && WrappedTest(g + [Wrapper(3)])
    requires BinaryGrad(g + [Wrapper(3)], 3, 0, seed, feed) == Ok(Some(gx))
    requires BinaryGrad(g + [Wrapper(3)], 3, 1, seed, feed) == Ok(Some(gy))
    ensures Walk(g, 3, target, feed, seed) == Ok(map[4 := seed][1 := gy][0 := gx])
  {
    var w := g + [Wrapper(3)];
    assert g[3] == w[3];
    TestInitialStack(g);
    assert OnGraph(w, [Edge(0, 4)]);
    TestWalkFirst(w, target, feed, seed, gy);
    TestWalkSecond(w, target, feed, seed, gx, gy);
  }

  /** The entry the walk leaves at each of the three variables. */
  lemma TestCollect(seed: Array, gx: Array, gy: Array, target: nat)
    requires target < 3
    ensures Collect(Ok(map[4 := seed][1 := gy][0 := gx]), target)
         == Ok(if target == 0 then Some(gx) else if target == 1 then Some(gy) else None)
  {
  }

  /** Away from the root, `grad` is what the walk from the root leaves at the target. */
  lemma {:induction false} GradIsWalk(g: Graph, root: nat, target: nat, feed: Feed, v: Array)
    requires Acyclic(g) && root < |g| && target < |g| && root != target
    requires Eval(g, root, feed) == Ok(v)
    ensures GradSpec(g, root, target, feed) == Collect(Walk(g, root, target, feed, New(1.0, v.shape).value), target)
  {
  }

  /**
   * `grad` on an operator test: the walk pops the edge of `b` and then that
   * of `a`, each receiving the operator's local rule applied to the seed;
   * `c` receives nothing.
   */
  lemma {:induction false} TestGraphGrad(g: Graph, target: nat, feed: Feed, v: Array)
    requires |g| == 4 && Acyclic(g) && WrappedTest(g + [Wrapper(3)]) && target < 3
    requires Eval(g, 3, feed) == Ok(v)
    ensures var w := g + [Wrapper(3)];
      var seed := New(1.0, v.shape).value;
      var gx, gy := BinaryGrad(w, 3, 0, seed, feed), BinaryGrad(w, 3, 1, seed, feed);
      gx.Ok? && gy.Ok? ==>
        GradSpec(g, 3, target, feed) == Ok(if target == 0 then gx.value else if target == 1 then gy.value else None)
  {
    var w := g + [Wrapper(3)];
    var seed := New(1.0, v.shape).value;
    var gx, gy := BinaryGrad(w, 3, 0, seed, feed), BinaryGrad(w, 3, 1, seed, feed);
    if gx.Ok? && gy.Ok? {
      TestWalk(g, target, feed, seed, gx.value.value, gy.value.value);
      TestCollect(seed, gx.value.value, gy.value.value, target);
      GradIsWalk(g, 3, target, feed, v);
    }
  }

  // The operator tests: `a` holds ones, `b` and `c` twos, all of one shape.

  /** A wrapped operator test whose variables hold the constants of the tests. */
  predicate ConstTest(w: Graph, s: seq<nat>)
  {
    0 !in s && WrappedTest(w) && w[0] == Variable(Const(1.0, s)) && w[1] == Variable(Const(2.0, s))
  }

  /** `NegOp` passes its input the gradient scaled by minus one. */
  lemma {:induction false} NegRule(w: Graph, p: nat, c: nat, grad: Array, feed: Feed)
    requires Acyclic(w) && p < |w| && w[p] == NegOp(c)
    ensures AccumGradSpec(w, p, c, grad, feed) == Scaled(w, c, -1.0, grad, feed)
  {
    assert UnaryGrad(w, p, c, grad, feed) == Scaled(w, c, -1.0, grad, feed);
  }

  /** Scaling a constant gradient `y` by `factor`, against an input of the same shape, gives the constant `y * factor`. */
  lemma {:induction false} ScaledConst(w: Graph, n: nat, feed: Feed, v: Array, factor: real, y: real)
    requires Acyclic(w) && n < |w| && Eval(w, n, feed) == Ok(v)
    ensures Scaled(w, n, factor, Const(y, v.shape), feed) == Ok(Some(Const(Times(y, factor), v.shape)))
  {
    assert New(factor, v.shape).value == Const(factor, v.shape);
    ConstZip(y, factor, v.shape, Times);
  }

  /** `grad` times the value of node `n`, when both are constants of one shape. */
  lemma {:induction false} TimesValueConst(w: Graph, n: nat, feed: Feed, z: real, y: real, s: seq<nat>)
    requires Acyclic(w) && n < |w| && 0 !in s && Eval(w, n, feed) == Ok(Const(z, s))
    ensures TimesValue(w, n, Const(y, s), feed) == Ok(Some(Const(Times(y, z), s)))
  {
    ConstZip(y, z, s, Times);
  }

  /** The division rule for the numerator on constants `x / y` of one shape: `grad * (1 / y)`. */
  lemma {:induction false} DivNumeratorConst(w: Graph, feed: Feed, x: real, y: real, gr: real, s: seq<nat>)
    requires WrappedTest(w) && 0 !in s && Eval(w, 0, feed) == Ok(Const(x, s)) && Eval(w, 1, feed) == Ok(Const(y, s))
    ensures DivNumeratorGrad(w, 0, 1, Const(gr, s), feed) == Ok(Some(Const(Times(gr, Quotient(1.0, y)), s)))
  {
    assert New(1.0, s).value == Const(1.0, s);
    ConstZip(1.0, y, s, Quotient);
    ConstZip(gr, Quotient(1.0, y), s, Times);
  }

  /** The division rule for the denominator on constants `x / y` of one shape: `grad * (-1 / (y * y))`. */
  lemma {:induction false} DivDenominatorConst(w: Graph, feed: Feed, x: real, y: real, gr: real, s: seq<nat>)
    requires WrappedTest(w) && 0 !in s && Eval(w, 0, feed) == Ok(Const(x, s)) && Eval(w, 1, feed) == Ok(Const(y, s))
    ensures DivDenominatorGrad(w, 0, 1, Const(gr, s), feed) == Ok(Some(Const(Times(gr, Quotient(-1.0, Times(y, y))), s)))
  {
    assert New(-1.0, s).value == Const(-1.0, s);
    ConstZip(y, y, s, Times);
    ConstZip(-1.0, Times(y, y), s, Quotient);
    ConstZip(gr, Quotient(-1.0, Times(y, y)), s, Times);
  }

  /** The rules of the four arithmetic operators of a test graph, for `a` (node 0) and `b` (node 1). */
  lemma {:induction false} TestRules(w: Graph, seed: Array, feed: Feed)
    requires WrappedTest(w)
    ensures w[3].AddOp? ==> (BinaryGrad(w, 3, 0, seed, feed) == Scaled(w, 0, 1.0, seed, feed)
                          && BinaryGrad(w, 3, 1, seed, feed) == Scaled(w, 1, 1.0, seed, feed))
    ensures w[3].SubOp? ==> (BinaryGrad(w, 3, 0, seed, feed) == Scaled(w, 1, -1.0, seed, feed)
                          && BinaryGrad(w, 3, 1, seed, feed) == Scaled(w, 0, -1.0, seed, feed))
    ensures w[3].MulOp? ==> (BinaryGrad(w, 3, 0, seed, feed) == TimesValue(w, 1, seed, feed)
                          && BinaryGrad(w, 3, 1, seed, feed) == TimesValue(w, 0, seed, feed))
    ensures w[3].DivOp? ==> (BinaryGrad(w, 3, 0, seed, feed) == DivNumeratorGrad(w, 0, 1, seed, feed)
                          && BinaryGrad(w, 3, 1, seed, feed) == DivDenominatorGrad(w, 0, 1, seed, feed))
  {
  }

  /** The values of `a` and `b` in an operator test. */
  lemma {:induction false} TestValues(w: Graph, s: seq<nat>)
    requires ConstTest(w, s)
    ensures Eval(w, 0, map[]) == Ok(Const(1.0, s)) && Eval(w, 1, map[]) == Ok(Const(2.0, s))
  {
  }

  /** `AddOp`: each input receives the seed times one. */
  lemma {:induction false} AddRule(w: Graph, s: seq<nat>)
    requires ConstTest(w, s) && w[3].AddOp?
    ensures BinaryGrad(w, 3, 0, Const(1.0, s), map[]) == Ok(Some(Const(1.0, s)))
    ensures BinaryGrad(w, 3, 1, Const(1.0, s), map[]) == Ok(Some(Const(1.0, s)))
  {
    TestRules(w, Const(1.0, s), map[]);
    TestValues(w, s);
    ScaledConst(w, 0, map[], Const(1.0, s), 1.0, 1.0);
    ScaledConst(w, 1, map[], Const(2.0, s), 1.0, 1.0);
    assert Times(1.0, 1.0) == 1.0;
  }

  /** `SubOp`: each input receives the seed times minus one, the first input included. */
  lemma {:induction false} SubRule(w: Graph, s: seq<nat>)
    requires ConstTest(w, s) && w[3].SubOp?
    ensures BinaryGrad(w, 3, 0, Const(1.0, s), map[]) == Ok(Some(Const(-1.0, s)))
    ensures BinaryGrad(w, 3, 1, Const(1.0, s), map[]) == Ok(Some(Const(-1.0, s)))
  {
    TestRules(w, Const(1.0, s), map[]);
    TestValues(w, s);
    ScaledConst(w, 1, map[], Const(2.0, s), -1.0, 1.0);
    ScaledConst(w, 0, map[], Const(1.0, s), -1.0, 1.0);
    assert Times(1.0, -1.0) == -1.0;
  }

  /** `MulOp`: each input receives the seed times the other input. */
  lemma {:induction false} MulRule(w: Graph, s: seq<nat>)
    requires ConstTest(w, s) && w[3].MulOp?
    ensures BinaryGrad(w, 3, 0, Const(1.0, s), map[]) == Ok(Some(Const(2.0, s)))
    ensures BinaryGrad(w, 3, 1, Const(1.0, s), map[]) == Ok(Some(Const(1.0, s)))
  {
    TestRules(w, Const(1.0, s), map[]);
    TestValues(w, s);
    TimesValueConst(w, 1, map[], 2.0, 1.0, s);
    TimesValueConst(w, 0, map[], 1.0, 1.0, s);
    assert Times(1.0, 2.0) == 2.0 && Times(1.0, 1.0) == 1.0;
  }

  /** `DivOp`: the numerator receives the seed times `1 / b`. */
  lemma {:induction false} DivNumeratorRule(w: Graph, s: seq<nat>)
    requires ConstTest(w, s) && w[3].DivOp?
    ensures BinaryGrad(w, 3, 0, Const(1.0, s), map[]) == Ok(Some(Const(0.5, s)))
  {
    TestRules(w, Const(1.0, s), map[]);
    TestValues(w, s);
    DivNumeratorConst(w, map[], 1.0, 2.0, 1.0, s);
    assert Times(1.0, Quotient(1.0, 2.0)) == 0.5;
  }

  /** `DivOp`: the denominator receives the seed times `-1 / (b * b)`. */
  lemma {:induction false} DivDenominatorRule(w: Graph, s: seq<nat>)
    requires ConstTest(w, s) && w[3].DivOp?
    ensures BinaryGrad(w, 3, 1, Const(1.0, s), map[]) == Ok(Some(Const(-0.25, s)))
  {
    TestRules(w, Const(1.0, s), map[]);
    TestValues(w, s);
    DivDenominatorConst(w, map[], 1.0, 2.0, 1.0, s);
    assert Times(1.0, Quotient(-1.0, Times(2.0, 2.0))) == -0.25;
  }

  /** The three gradients of an operator test, given the forward value and the two rule results. */
  lemma {:induction false} OperatorTest(g: Graph, v: Array, gx: Array, gy: Array)
    requires |g| == 4 && Acyclic(g) && WrappedTest(g + [Wrapper(3)])
    requires Eval(g, 3, map[]) == Ok(v)
    requires BinaryGrad(g + [Wrapper(3)], 3, 0, New(1.0, v.shape).value, map[]) == Ok(Some(gx))
    requires BinaryGrad(g + [Wrapper(3)], 3, 1, New(1.0, v.shape).value, map[]) == Ok(Some(gy))
    ensures GradSpec(g, 3, 0, map[]) == Ok(Some(gx))
    ensures GradSpec(g, 3, 1, map[]) == Ok(Some(gy))
    ensures GradSpec(g, 3, 2, map[]) == Ok(None)
  {
    TestGraphGrad(g, 0, map[], v);
    TestGraphGrad(g, 1, map[], v);
    TestGraphGrad(g, 2, map[], v);
  }

  /** `a + b` is 3 everywhere; its gradient is 1 for `a` and for `b`, and there is none for `c`. */
  lemma {:induction false} AddGradients(s: seq<nat>)
    requires 0 !in s
    ensures var g := TestGraph(Const(1.0, s), Const(2.0, s), Const(2.0, s), AddOp(0, 1));
      Eval(g, 3, map[]) == Ok(Const(3.0, s))
      && GradSpec(g, 3, 0, map[]) == Ok(Some(Const(1.0, s)))
      && GradSpec(g, 3, 1, map[]) == Ok(Some(Const(1.0, s)))
      && GradSpec(g, 3, 2, map[]) == Ok(None)
  {
    var g := TestGraph(Const(1.0, s), Const(2.0, s), Const(2.0, s), AddOp(0, 1));
    ConstZip(1.0, 2.0, s, Plus);
    assert Eval(g, 3, map[]) == Ok(Const(3.0, s));
    AddRule(g + [Wrapper(3)], s);
    OperatorTest(g, Const(3.0, s), Const(1.0, s), Const(1.0, s));
  }

  /** `a - b` is -1 everywhere; its gradient is -1 for `a` and for `b`, and there is none for `c`. */
  lemma {:induction false} SubGradients(s: seq<nat>)
    requires 0 !in s
    ensures var g := TestGraph(Const(1.0, s), Const(2.0, s), Const(2.0, s), SubOp(0, 1));
      Eval(g, 3, map[]) == Ok(Const(-1.0, s))
      && GradSpec(g, 3, 0, map[]) == Ok(Some(Const(-1.0, s)))
      && GradSpec(g, 3, 1, map[]) == Ok(Some(Const(-1.0, s)))
      && GradSpec(g, 3, 2, map[]) == Ok(None)
  {
    var g := TestGraph(Const(1.0, s), Const(2.0, s), Const(2.0, s), SubOp(0, 1));
    ConstZip(1.0, 2.0, s, Minus);
    assert Eval(g, 3, map[]) == Ok(Const(-1.0, s));
    SubRule(g + [Wrapper(3)], s);
    OperatorTest(g, Const(-1.0, s), Const(-1.0, s), Const(-1.0, s));
  }

  /** `a * b` is 2 everywhere; its gradient is 2 for `a` and 1 for `b`, and there is none for `c`. */
  lemma {:induction false} MulGradients(s: seq<nat>)
    requires 0 !in s
    ensures var g := TestGraph(Const(1.0, s), Const(2.0, s), Const(2.0, s), MulOp(0, 1));
      Eval(g, 3, map[]) == Ok(Const(2.0, s))
      && GradSpec(g, 3, 0, map[]) == Ok(Some(Const(2.0, s)))
      && GradSpec(g, 3, 1, map[]) == Ok(Some(Const(1.0, s)))
      && GradSpec(g, 3, 2, map[]) == Ok(None)
  {
    var g := TestGraph(Const(1.0, s), Const(2.0, s), Const(2.0, s), MulOp(0, 1));
    ConstZip(1.0, 2.0, s, Times);
    assert Eval(g, 3, map[]) == Ok(Const(2.0, s));
    MulRule(g + [Wrapper(3)], s);
    OperatorTest(g, Const(2.0, s), Const(2.0, s), Const(1.0, s));
  }

  /** `a / b` is 0.5 everywhere; its gradient is 0.5 for `a` and -0.25 for `b`, and there is none for `c`. */
  lemma {:induction false} DivGradients(s: seq<nat>)
    requires 0 !in s
    ensures var g := TestGraph(Const(1.0, s), Const(2.0, s), Const(2.0, s), DivOp(0, 1));
      Eval(g, 3, map[]) == Ok(Const(0.5, s))
      && GradSpec(g, 3, 0, map[]) == Ok(Some(Const(0.5, s)))
      && GradSpec(g, 3, 1, map[]) == Ok(Some(Const(-0.25, s)))
      && GradSpec(g, 3, 2, map[]) == Ok(None)
  {
    var g := TestGraph(Const(1.0, s), Const(2.0, s), Const(2.0, s), DivOp(0, 1));
    ConstZip(1.0, 2.0, s, Quotient);
    assert Eval(g, 3, map[]) == Ok(Const(0.5, s));
    DivNumeratorRule(g + [Wrapper(3)], s);
    DivDenominatorRule(g + [Wrapper(3)], s);
    OperatorTest(g, Const(0.5, s), Const(0.5, s), Const(-0.25, s));
  }

  // The matrix product test: `a` holds ones of shape [rows, inner], `b` and `c` twos of shape [inner, cols].

  /** A wrapped matrix product test whose variables hold the constants of the test. */
  predicate MatmulTest(w: Graph, rows: nat, inner: nat, cols: nat)
  {
    rows > 0 && inner > 0 && cols > 0 && WrappedTest(w) && w[3].MatMulOp?
    && w[0] == Variable(Const(1.0, [rows, inner])) && w[1] == Variable(Const(2.0, [inner, cols]))
  }

  /** `MatMulOp`: the left input receives the seed times the transpose of `b`. */
  lemma {:induction false} MatmulLeftRule(w: Graph, rows: nat, inner: nat, cols: nat)
    requires MatmulTest(w, rows, inner, cols)
    ensures BinaryGrad(w, 3, 0, Const(1.0, [rows, cols]), map[]) == Ok(Some(Const(2.0 * (cols as real), [rows, inner])))
  {
    ConstTranspose(2.0, inner, cols);
    ConstMatmul(1.0, 2.0, rows, cols, inner, 2.0 * (cols as real));
    LeftRule(w, Const(1.0, [rows, cols]), Const(2.0, [inner, cols]), Const(2.0, [cols, inner]),
             Const(2.0 * (cols as real), [rows, inner]));
  }

  /** `MatMulOp`: the right input receives the transpose of `a` times the seed. */
  lemma {:induction false} MatmulRightRule(w: Graph, rows: nat, inner: nat, cols: nat)
    requires MatmulTest(w, rows, inner, cols)
    ensures BinaryGrad(w, 3, 1, Const(1.0, [rows, cols]), map[]) == Ok(Some(Const(rows as real, [inner, cols])))
  {
    ConstTranspose(1.0, rows, inner);
    ConstMatmul(1.0, 1.0, inner, rows, cols, rows as real);
    RightRule(w, Const(1.0, [rows, cols]), Const(1.0, [rows, inner]), Const(1.0, [inner, rows]),
              Const(rows as real, [inner, cols]));
  }

  /** The rule of `MatMulOp` for its left input, on any values. */
  lemma {:induction false} LeftRule(w: Graph, seed: Array, b: Array, t: Array, p: Array)
    requires WrappedTest(w) && w[3].MatMulOp? && w[1] == Variable(b)
    requires TransposeSpec(b) == Ok(t) && MatmulSpec(seed, t) == Ok(p)
    ensures BinaryGrad(w, 3, 0, seed, map[]) == Ok(Some(p))
  {
    MatmulBinary(w, seed);
    assert Eval(w, 1, map[]) == Ok(b);
  }

  /** The rule of `MatMulOp` for its right input, on any values. */
  lemma {:induction false} RightRule(w: Graph, seed: Array, a: Array, t: Array, p: Array)
    requires WrappedTest(w) && w[3].MatMulOp? && w[0] == Variable(a)
    requires TransposeSpec(a) == Ok(t) && MatmulSpec(t, seed) == Ok(p)
    ensures BinaryGrad(w, 3, 1, seed, map[]) == Ok(Some(p))
  {
    MatmulBinary(w, seed);
    assert Eval(w, 0, map[]) == Ok(a);
  }

  /** `MatMulOp` passes its first input the left rule and its second the right rule. */
  lemma {:induction false} MatmulBinary(w: Graph, seed: Array)
    requires WrappedTest(w) && w[3].MatMulOp?
    ensures BinaryGrad(w, 3, 0, seed, map[]) == MatMulLeftGrad(w, 1, seed, map[])
    ensures BinaryGrad(w, 3, 1, seed, map[]) == MatMulRightGrad(w, 0, seed, map[])
  {
    assert w[3] == MatMulOp(0, 1);
  }

  /** The forward value of the matrix product test. */
  lemma {:induction false} MatmulForward(g: Graph, rows: nat, inner: nat, cols: nat)
    requires rows > 0 && inner > 0 && cols > 0
    requires g == TestGraph(Const(1.0, [rows, inner]), Const(2.0, [inner, cols]), Const(2.0, [inner, cols]), MatMulOp(0, 1))
    ensures Eval(g, 3, map[]) == Ok(Const(2.0 * (inner as real), [rows, cols]))
  {
    ConstMatmul(1.0, 2.0, rows, inner, cols, 2.0 * (inner as real));
  }

  /**
   * `a . b` holds `2 * inner` everywhere; its gradient is `2 * cols` for `a`
   * and `rows` for `b`, and there is none for `c`.
   */
  lemma {:induction false} MatmulGradients(rows: nat, inner: nat, cols: nat)
    requires rows > 0 && inner > 0 && cols > 0
    ensures var g := TestGraph(Const(1.0, [rows, inner]), Const(2.0, [inner, cols]), Const(2.0, [inner, cols]), MatMulOp(0, 1));
      Eval(g, 3, map[]) == Ok(Const(2.0 * (inner as real), [rows, cols]))
      && GradSpec(g, 3, 0, map[]) == Ok(Some(Const(2.0 * (cols as real), [rows, inner])))
      && GradSpec(g, 3, 1, map[]) == Ok(Some(Const(rows as real, [inner, cols])))
      && GradSpec(g, 3, 2, map[]) == Ok(None)
  {
    var g := TestGraph(Const(1.0, [rows, inner]), Const(2.0, [inner, cols]), Const(2.0, [inner, cols]), MatMulOp(0, 1));
    var v := Const(2.0 * (inner as real), [rows, cols]);
    MatmulForward(g, rows, inner, cols);
    MatmulLeftRule(g + [Wrapper(3)], rows, inner, cols);
    MatmulRightRule(g + [Wrapper(3)], rows, inner, cols);
    OperatorTest(g, v, Const(2.0 * (cols as real), [rows, inner]), Const(rows as real, [inner, cols]));
  }

  /** One batch slice of the test's arrays, 3 x 2 and 2 x 4: the product holds 4, the gradients 8 and 3. */
  lemma MatmulTestValues()
    ensures var g := TestGraph(Const(1.0, [3, 2]), Const(2.0, [2, 4]), Const(2.0, [2, 4]), MatMulOp(0, 1));
      Eval(g, 3, map[]) == Ok(Const(4.0, [3, 4]))
      && GradSpec(g, 3, 0, map[]) == Ok(Some(Const(8.0, [3, 2])))
      && GradSpec(g, 3, 1, map[]) == Ok(Some(Const(3.0, [2, 4])))
      && GradSpec(g, 3, 2, map[]) == Ok(None)
  {
    MatmulGradients(3, 2, 4);
  }

  // The walk on the graph of a one-input test.

  /** A one-input test graph with the wrapper of node 2 appended: leaves at 0 and 1, the operator of node 0 at 2. */
  predicate WrappedUnaryTest(w: Graph)
  {
    |w| == 4 && Acyclic(w) && w[0].Variable? && w[1].Variable? && IsUnary(w[2]) && w[2].x == 0 && w[3] == Wrapper(2)
  }

  /** The graph of a one-input test: variables `a` and `b` at nodes 0 and 1, and `op` of node 0 at node 2. */
  function UnaryTestGraph(a: Array, b: Array, op: Op): (g: Graph)
    requires IsUnary(op) && op.x == 0
    ensures |g| == 3 && g[0] == Variable(a) && g[1] == Variable(b) && g[2] == op
    ensures Acyclic(g) && WrappedUnaryTest(g + [Wrapper(2)])
  {
    var g := [Variable(a), Variable(b), op];
    WrappedAcyclic(g, 2);
    g
  }

  /** The walk on a one-input test graph starts with the one edge from `a` to the wrapper. */
  lemma {:induction false} UnaryInitialStack(g: Graph)
    requires |g| == 3 && Acyclic(g) && IsUnary(g[2]) && g[2].x == 0
    ensures InitialStack(g, 2) == [Edge(0, 3)]
  {
    assert Inputs(g[2]) == [0];
  }

  /** The wrapper answers with the operator's rule, and `a` pushes nothing when popped. */
  lemma {:induction false} UnaryPopFacts(w: Graph, target: nat, feed: Feed, seed: Array)
    requires WrappedUnaryTest(w)
    ensures AccumGradSpec(w, 3, 0, seed, feed) == UnaryGrad(w, 2, 0, seed, feed)
    ensures Expand(w, target, [], 0) == []
  {
    assert AccumGradSpec(w, 3, 0, seed, feed) == AccumGradSpec(w, 2, 0, seed, feed);
    assert Inputs(w[0]) == [];
  }

  /** The whole walk on a one-input test graph: `a` takes the operator's rule applied to the seed, and the stack is then empty. */
  lemma {:induction false} UnaryWalk(g: Graph, target: nat, feed: Feed, seed: Array, gx: Array)
    requires |g| == 3 && Acyclic(g) && WrappedUnaryTest(g + [Wrapper(2)])
    requires UnaryGrad(g + [Wrapper(2)], 2, 0, seed, feed) == Ok(Some(gx))
    ensures Walk(g, 2, target, feed, seed) == Ok(map[3 := seed][0 := gx])
  {
    var w := g + [Wrapper(2)];
    assert g[2] == w[2];
    UnaryInitialStack(g);
    UnaryPopFacts(w, target, feed, seed);
    AccumulateFresh(map[3 := seed], 0, gx);
    assert [] + [Edge(0, 3)] == [Edge(0, 3)];
    assert map[3 := seed][3] == seed;
    PopStep(w, target, feed, [Edge(0, 3)], [], Edge(0, 3), map[3 := seed], Some(gx), map[3 := seed][0 := gx], []);
  }

  /** `grad` on a one-input test: `a` receives the operator's local rule applied to the seed, and `b` nothing. */
  lemma {:induction false} UnaryOperatorTest(g: Graph, v: Array, gx: Array, target: nat)
    requires |g| == 3 && Acyclic(g) && WrappedUnaryTest(g + [Wrapper(2)]) && target < 2
    requires Eval(g, 2, map[]) == Ok(v)
    requires UnaryGrad(g + [Wrapper(2)], 2, 0, New(1.0, v.shape).value, map[]) == Ok(Some(gx))
    ensures GradSpec(g, 2, target, map[]) == Ok(if target == 0 then Some(gx) else None)
  {
    var seed := New(1.0, v.shape).value;
    GradIsWalk(g, 2, target, map[], v);
    UnaryWalk(g, target, map[], seed, gx);
    UnaryCollect(seed, gx, target);
  }

  /** The entry the walk on a one-input test leaves at each of the two variables. */
  lemma UnaryCollect(seed: Array, gx: Array, target: nat)
    requires target < 2
    ensures Collect(Ok(map[3 := seed][0 := gx]), target) == Ok(if target == 0 then Some(gx) else None)
  {
  }

  /**
   * The local rules of the operators with a scalar and of `NegOp`, for a
   * seed of ones against an input of ones: the factor each passes on.
   */
  lemma {:induction false} ScalarRule(w: Graph, s: seq<nat>)
    requires 0 !in s && WrappedUnaryTest(w) && w[0] == Variable(Const(1.0, s))
    ensures w[2].AddScalarOp? ==> UnaryGrad(w, 2, 0, Const(1.0, s), map[]) == Ok(Some(Const(1.0, s)))
    ensures w[2].SubScalarOp? ==> UnaryGrad(w, 2, 0, Const(1.0, s), map[]) == Ok(Some(Const(-1.0, s)))
    ensures w[2].MulScalarOp? ==> UnaryGrad(w, 2, 0, Const(1.0, s), map[]) == Ok(Some(Const(w[2].s, s)))
    ensures w[2].DivScalarOp? ==> UnaryGrad(w, 2, 0, Const(1.0, s), map[]) == Ok(Some(Const(Quotient(1.0, w[2].s), s)))
    ensures w[2].NegOp? ==> UnaryGrad(w, 2, 0, Const(1.0, s), map[]) == Ok(Some(Const(-1.0, s)))
  {
    var seed := Const(1.0, s);
    assert Eval(w, 0, map[]) == Ok(Const(1.0, s));
    var op := w[2];
    if op.AddScalarOp? {
      ScaledConst(w, 0, map[], Const(1.0, s), 1.0, 1.0);
      assert Times(1.0, 1.0) == 1.0;
    } else if op.SubScalarOp? || op.NegOp? {
      ScaledConst(w, 0, map[], Const(1.0, s), -1.0, 1.0);
      assert Times(1.0, -1.0) == -1.0;
    } else if op.MulScalarOp? {
      ScaledConst(w, 0, map[], Const(1.0, s), op.s, 1.0);
      assert Times(1.0, op.s) == op.s;
    } else if op.DivScalarOp? {
      ScaledConst(w, 0, map[], Const(1.0, s), Quotient(1.0, op.s), 1.0);
      assert Times(1.0, Quotient(1.0, op.s)) == Quotient(1.0, op.s);
    }
  }

  // The negation test: `a` and `b` hold ones and the root is `-a`.

  /** The graph `a; b; -a`. */
  function NegGraph(s: seq<nat>): (g: Graph)
    requires 0 !in s
    ensures |g| == 3 && Acyclic(g) && WrappedUnaryTest(g + [Wrapper(2)])
    ensures g[0] == Variable(Const(1.0, s)) && g[2] == NegOp(0)
  {
    UnaryTestGraph(Const(1.0, s), Const(1.0, s), NegOp(0))
  }

  /** The value of `-a`: minus one everywhere. */
  lemma {:induction false} NegForward(s: seq<nat>)
    requires 0 !in s
    ensures Eval(NegGraph(s), 2, map[]) == Ok(Const(-1.0, s))
  {
    IsConst(Mapped(Const(1.0, s), Negate), -1.0);
  }

  /** `grad` of `-a` for node `target`: -1 for `a`, and nothing for `b`. */
  lemma {:induction false} NegGrad(s: seq<nat>, target: nat)
    requires 0 !in s && target < 2
    ensures GradSpec(NegGraph(s), 2, target, map[]) == if target == 0 then Ok(Some(Const(-1.0, s))) else Ok(None)
  {
    var g := NegGraph(s);
    var w := g + [Wrapper(2)];
    var v := Const(-1.0, s);
    NegForward(s);
    assert New(1.0, v.shape).value == Const(1.0, s);
    assert w[0] == g[0] && w[2] == g[2];
    ScalarRule(w, s);
    UnaryOperatorTest(g, v, Const(-1.0, s), target);
  }

  // The scalar operator tests: `a` holds ones, `b` twos, and the root is `a` combined with the scalar 2.

  /** The four operators with a scalar, applied to node 0 and the scalar 2. */
  predicate ScalarTestOp(op: Op)
  {
    (op.AddScalarOp? || op.SubScalarOp? || op.MulScalarOp? || op.DivScalarOp?) && op.x == 0 && op.s == 2.0
  }

  /** The graph `a; b; a op 2`, `a` holding ones and `b` twos. */
  function ScalarTestGraph(s: seq<nat>, op: Op): (g: Graph)
    requires 0 !in s && ScalarTestOp(op)
    ensures |g| == 3 && Acyclic(g) && WrappedUnaryTest(g + [Wrapper(2)])
    ensures g[0] == Variable(Const(1.0, s)) && g[2] == op
  {
    UnaryTestGraph(Const(1.0, s), Const(2.0, s), op)
  }

  /** The values of `a + 2`, `a - 2`, `a * 2` and `a / 2` with `a` all ones: 3, -1, 2 and 0.5 everywhere. */
  lemma {:induction false} ScalarForward(s: seq<nat>, op: Op)
    requires 0 !in s && ScalarTestOp(op)
    ensures op.AddScalarOp? ==> Eval(ScalarTestGraph(s, op), 2, map[]) == Ok(Const(3.0, s))
    ensures op.SubScalarOp? ==> Eval(ScalarTestGraph(s, op), 2, map[]) == Ok(Const(-1.0, s))
    ensures op.MulScalarOp? ==> Eval(ScalarTestGraph(s, op), 2, map[]) == Ok(Const(2.0, s))
    ensures op.DivScalarOp? ==> Eval(ScalarTestGraph(s, op), 2, map[]) == Ok(Const(0.5, s))
  {
    var a := Const(1.0, s);
    UnaryRootValue(ScalarTestGraph(s, op), a);
    match op
    case AddScalarOp(_, _) =>
      assert Unary(op, a) == Ok(ScalarResult(a, 2.0, Plus));
      ScalarConst(1.0, 2.0, s, Plus);
      assert Plus(1.0, 2.0) == 3.0;
    case SubScalarOp(_, _) =>
      assert Unary(op, a) == Ok(ScalarResult(a, 2.0, Minus));
      ScalarConst(1.0, 2.0, s, Minus);
      assert Minus(1.0, 2.0) == -1.0;
    case MulScalarOp(_, _) =>
      assert Unary(op, a) == Ok(ScalarResult(a, 2.0, Times));
      ScalarConst(1.0, 2.0, s, Times);
      assert Times(1.0, 2.0) == 2.0;
    case DivScalarOp(_, _) =>
      assert Unary(op, a) == Ok(ScalarResult(a, 2.0, Quotient));
      ScalarConst(1.0, 2.0, s, Quotient);
      assert Quotient(1.0, 2.0) == 0.5;
  }

  /** The root of a one-input test graph has the operator's forward rule applied to the value of `a`. */
  lemma {:induction false} UnaryRootValue(g: Graph, a: Array)
    requires |g| == 3 && Acyclic(g) && IsUnary(g[2]) && g[2].x == 0 && g[0] == Variable(a)
    ensures Eval(g, 2, map[]) == Unary(g[2], a)
  {
    assert Eval(g, 0, map[]) == Ok(a);
  }

  /** The gradient of `a op 2` for `a`: 1, -1, 2 and 0.5 everywhere for the four operators. */
  lemma {:induction false} ScalarGradients(s: seq<nat>, op: Op)
    requires 0 !in s && ScalarTestOp(op)
    ensures op.AddScalarOp? ==> GradSpec(ScalarTestGraph(s, op), 2, 0, map[]) == Ok(Some(Const(1.0, s)))
    ensures op.SubScalarOp? ==> GradSpec(ScalarTestGraph(s, op), 2, 0, map[]) == Ok(Some(Const(-1.0, s)))
    ensures op.MulScalarOp? ==> GradSpec(ScalarTestGraph(s, op), 2, 0, map[]) == Ok(Some(Const(2.0, s)))
    ensures op.DivScalarOp? ==> GradSpec(ScalarTestGraph(s, op), 2, 0, map[]) == Ok(Some(Const(0.5, s)))
  {
    var g := ScalarTestGraph(s, op);
    var w := g + [Wrapper(2)];
    ScalarForward(s, op);
    var v := Eval(g, 2, map[]).value;
    assert v.shape == s;
    assert New(1.0, v.shape).value == Const(1.0, s);
    assert w[0] == g[0] && w[2] == g[2];
    ScalarRule(w, s);
    assert Quotient(1.0, 2.0) == 0.5;
    var gx := if op.AddScalarOp? then Const(1.0, s) else if op.SubScalarOp? then Const(-1.0, s)
              else if op.MulScalarOp? then Const(2.0, s) else Const(0.5, s);
    UnaryOperatorTest(g, v, gx, 0);
  }

  /** `a op 2` has no gradient for `b`, whichever of the four operators it is. */
  lemma {:induction false} ScalarGradientUnrelated(s: seq<nat>, op: Op)
    requires 0 !in s && ScalarTestOp(op)
    ensures GradSpec(ScalarTestGraph(s, op), 2, 1, map[]) == Ok(None)
  {
    var g := ScalarTestGraph(s, op);
    var w := g + [Wrapper(2)];
    ScalarForward(s, op);
    var v := Eval(g, 2, map[]).value;
    assert New(1.0, v.shape).value == Const(1.0, s);
    assert w[0] == g[0] && w[2] == g[2];
    ScalarRule(w, s);
    var gx := UnaryGrad(w, 2, 0, Const(1.0, s), map[]).value.value;
    UnaryOperatorTest(g, v, gx, 1);
  }

  // The reductions: `a` holds the constant `x` and the root reduces it with `keep_dims`.

  /** The shape a reduction with `keep_dims` leaves: it broadcasts back onto the input's shape. */
  function KeptShape(s: seq<nat>, axis: Option<nat>): (r: seq<nat>)
    requires 0 !in s && CheckReduceAxis(s, axis).Pass?
    ensures GetShapeAfterReduce(s, axis, true) == Ok(r)
    ensures 0 !in r && Compatible(r, s) && GetShapeAfterBroadcast(r, s) == Ok(s)
  {
    var r := GetShapeAfterReduce(s, axis, true).value;
    ReduceShape(s, axis, true);
    BroadcastOnto(r, s);
    r
  }

  /** Scaling a constant gradient `gr` of shape `r` by `factor`, against a constant input of a shape `s` that `r` broadcasts onto, gives the constant `gr * factor` of shape `s`. */
  lemma {:induction false} ScaledBroadcast(w: Graph, n: nat, x: real, s: seq<nat>, r: seq<nat>, factor: real, gr: real)
    requires Acyclic(w) && n < |w| && 0 !in s && 0 !in r && Eval(w, n, map[]) == Ok(Const(x, s))
    requires GetShapeAfterBroadcast(r, s) == Ok(s)
    ensures Scaled(w, n, factor, Const(gr, r), map[]) == Ok(Some(Const(Times(gr, factor), s)))
  {
    assert New(factor, s).value == Const(factor, s);
    ConstBroadcast(gr, factor, r, s, Times);
  }

  /** The factor of `ReduceMeanOp` on a constant input of shape `s`, for a constant gradient of a shape that broadcasts onto `s`. */
  lemma {:induction false} MeanFactorConst(w: Graph, n: nat, x: real, s: seq<nat>, r: seq<nat>, axis: Option<nat>, gr: real)
    requires Acyclic(w) && n < |w| && 0 !in s && 0 !in r && Eval(w, n, map[]) == Ok(Const(x, s))
    requires GetShapeAfterBroadcast(r, s) == Ok(s)
    ensures axis.Some? ==> MeanFactor(w, n, axis, Const(gr, r), map[]) == Ok(Some(Const(Times(gr, Quotient(1.0, axis.value as real)), s)))
    ensures axis.None? ==> MeanFactor(w, n, axis, Const(gr, r), map[]) == Ok(Some(Const(Times(gr, Quotient(1.0, Product(s) as real)), s)))
  {
    var q := Quotient(1.0, (if axis.Some? then axis.value else Product(s)) as real);
    assert New(q, s).value == Const(q, s);
    ConstBroadcast(gr, q, r, s, Times);
  }

  /** `ReduceSumOp` spreads a constant gradient `gr` of the reduced shape over the whole input. */
  lemma {:induction false} ReduceSumRule(w: Graph, x: real, s: seq<nat>, axis: Option<nat>, gr: real)
    requires 0 !in s && CheckReduceAxis(s, axis).Pass?
    requires WrappedUnaryTest(w) && w[0] == Variable(Const(x, s)) && w[2] == ReduceSumOp(0, axis, true)
    ensures UnaryGrad(w, 2, 0, Const(gr, KeptShape(s, axis)), map[]) == Ok(Some(Const(gr, s)))
  {
    var r := KeptShape(s, axis);
    assert UnaryGrad(w, 2, 0, Const(gr, r), map[]) == Scaled(w, 0, 1.0, Const(gr, r), map[]);
    ScaledBroadcast(w, 0, x, s, r, 1.0, gr);
    assert Times(gr, 1.0) == gr;
  }

  /**
   * `ReduceMeanOp` over axis `k` spreads a constant gradient `gr` of the
   * reduced shape over the whole input, divided by the axis index `k`.
   */
  lemma {:induction false} ReduceMeanRule(w: Graph, x: real, s: seq<nat>, k: nat, gr: real)
    requires 0 !in s && k < |s| && WrappedUnaryTest(w) && w[0] == Variable(Const(x, s)) && w[2] == ReduceMeanOp(0, Some(k), true)
    ensures UnaryGrad(w, 2, 0, Const(gr, KeptShape(s, Some(k))), map[]) == Ok(Some(Const(Times(gr, Quotient(1.0, k as real)), s)))
  {
    var r := KeptShape(s, Some(k));
    assert UnaryGrad(w, 2, 0, Const(gr, r), map[]) == MeanFactor(w, 0, Some(k), Const(gr, r), map[]);
    MeanFactorConst(w, 0, x, s, r, Some(k), gr);
  }

  /** `ReduceMeanOp` over the whole array spreads a constant gradient `gr` over the input, divided by the element count. */
  lemma {:induction false} ReduceMeanAllRule(w: Graph, x: real, s: seq<nat>, gr: real)
    requires 0 !in s && WrappedUnaryTest(w) && w[0] == Variable(Const(x, s)) && w[2] == ReduceMeanOp(0, None, true)
    ensures UnaryGrad(w, 2, 0, Const(gr, KeptShape(s, None)), map[]) == Ok(Some(Const(Times(gr, Quotient(1.0, Product(s) as real)), s)))
  {
    var r := KeptShape(s, None);
    assert UnaryGrad(w, 2, 0, Const(gr, r), map[]) == MeanFactor(w, 0, None, Const(gr, r), map[]);
    MeanFactorConst(w, 0, x, s, r, None, gr);
  }

  /** `grad` of a sum with `keep_dims`, over an axis or the whole array, is ones of the input's shape. */
  lemma {:induction false} SumGradients(s: seq<nat>, axis: Option<nat>, target: nat)
    requires 0 !in s && CheckReduceAxis(s, axis).Pass? && target < 2
    ensures GradSpec(UnaryTestGraph(Const(1.0, s), Const(2.0, s), ReduceSumOp(0, axis, true)), 2, target, map[])
         == Ok(if target == 0 then Some(Const(1.0, s)) else None)
  {
    var g := UnaryTestGraph(Const(1.0, s), Const(2.0, s), ReduceSumOp(0, axis, true));
    var w := g + [Wrapper(2)];
    var r := KeptShape(s, axis);
    var v := ReduceSpec(Const(1.0, s), Plus, axis, true).value;
    assert Eval(g, 2, map[]) == Ok(v);
    assert New(1.0, v.shape).value == Const(1.0, r);
    assert w[0] == g[0] && w[2] == g[2];
    ReduceSumRule(w, 1.0, s, axis, 1.0);
    UnaryOperatorTest(g, v, Const(1.0, s), target);
  }

  /**
   * `grad` of a mean with `keep_dims` over axis `k` is `1 / k` everywhere:
   * the divisor is the axis index, where the mean's derivative is one over
   * the length `s[k]` of that axis.
   */
  lemma {:induction false} MeanGradients(s: seq<nat>, k: nat, target: nat)
    requires 0 !in s && k < |s| && target < 2
    ensures GradSpec(UnaryTestGraph(Const(1.0, s), Const(2.0, s), ReduceMeanOp(0, Some(k), true)), 2, target, map[])
         == Ok(if target == 0 then Some(Const(Quotient(1.0, k as real), s)) else None)
  {
    var g := UnaryTestGraph(Const(1.0, s), Const(2.0, s), ReduceMeanOp(0, Some(k), true));
    var w := g + [Wrapper(2)];
    var r := KeptShape(s, Some(k));
    var v := MeanSpec(Const(1.0, s), Some(k), true).value;
    assert Eval(g, 2, map[]) == Ok(v);
    assert New(1.0, v.shape).value == Const(1.0, r);
    assert w[0] == g[0] && w[2] == g[2];
    ReduceMeanRule(w, 1.0, s, k, 1.0);
    assert Times(1.0, Quotient(1.0, k as real)) == Quotient(1.0, k as real);
    UnaryOperatorTest(g, v, Const(Quotient(1.0, k as real), s), target);
  }

  /** The mean of a [2, 3, 5] array over axis 2 passes 1/2 everywhere, not 1/5. */
  lemma {:induction false} MeanAxisIndexExample()
    ensures GradSpec(UnaryTestGraph(Const(1.0, [2, 3, 5]), Const(2.0, [2, 3, 5]), ReduceMeanOp(0, Some(2), true)), 2, 0, map[])
         == Ok(Some(Const(0.5, [2, 3, 5])))
  {
    MeanGradients([2, 3, 5], 2, 0);
    assert Quotient(1.0, 2 as real) == 0.5;
  }

  // A node reached along two paths: `p = -x; r = p + p`.

  /** The graph `x; p = -x; r = p + p` with the wrapper of `r` appended. */
  predicate DoubledWrapped(w: Graph, x: real, s: seq<nat>)
  {
    0 !in s && |w| == 4 && Acyclic(w)
    && w[0] == Variable(Const(x, s)) && w[1] == NegOp(0) && w[2] == AddOp(1, 1) && w[3] == Wrapper(2)
  }

  /** The graph `x; p = -x; r = p + p`: `p` is both inputs of `r`. */
  function DoubledGraph(x: real, s: seq<nat>): (g: Graph)
    requires 0 !in s
    ensures |g| == 3 && g[0] == Variable(Const(x, s)) && g[1] == NegOp(0) && g[2] == AddOp(1, 1)
    ensures Acyclic(g) && DoubledWrapped(g + [Wrapper(2)], x, s)
  {
    var g := [Variable(Const(x, s)), NegOp(0), AddOp(1, 1)];
    WrappedAcyclic(g, 2);
    g
  }

  /** The wrapper passes the seed to `p` as the first input of the sum: the seed times one. */
  lemma {:induction false} DoubledSumRule(w: Graph, x: real, s: seq<nat>)
    requires DoubledWrapped(w, x, s)
    ensures AccumGradSpec(w, 3, 1, Const(1.0, s), map[]) == Ok(Some(Const(1.0, s)))
  {
    assert Eval(w, 1, map[]) == Ok(Mapped(Const(x, s), Negate));
    ConstZip(1.0, 1.0, s, Times);
  }

  /** `p` passes its gradient `y` to `x` times minus one. */
  lemma {:induction false} DoubledNegRule(w: Graph, x: real, s: seq<nat>, y: real)
    requires DoubledWrapped(w, x, s)
    ensures AccumGradSpec(w, 1, 0, Const(y, s), map[]) == Ok(Some(Const(-y, s)))
  {
    NegRule(w, 1, 0, Const(y, s), map[]);
    assert Eval(w, 0, map[]) == Ok(Const(x, s));
    ScaledConst(w, 0, map[], Const(x, s), -1.0, y);
    assert Times(y, -1.0) == -y;
  }

  /** A contribution for a node without an entry becomes its entry. */
  lemma {:induction false} AccumulateFresh(accum: map<nat, Array>, node: nat, c: Array)
    requires node !in accum
    ensures Accumulate(accum, node, Some(c)) == Ok(accum[node := c])
  {
  }

  /** Adding the constant `y` to an entry holding the constant `x` leaves the constant `x + y` there. */
  lemma {:induction false} AccumulateConst(accum: map<nat, Array>, node: nat, x: real, y: real, s: seq<nat>)
    requires 0 !in s && node in accum && accum[node] == Const(x, s)
    ensures Accumulate(accum, node, Some(Const(y, s))) == Ok(accum[node := Const(Plus(x, y), s)])
  {
    ConstZip(x, y, s, Plus);
  }

  /** The entries of the walk on the doubled graph after each pop, the wrapper at node 3 holding ones. */
  function DoubledAccum(s: seq<nat>, pops: nat): (m: map<nat, Array>)
    requires 0 !in s && pops <= 4
    ensures 3 in m && m[3] == Const(1.0, s)
    ensures (1 in m <==> pops >= 1) && (0 in m <==> pops >= 2)
    ensures pops == 1 || pops == 2 ==> 1 in m && m[1] == Const(1.0, s)
    ensures pops == 2 || pops == 3 ==> 0 in m && m[0] == Const(-1.0, s)
    ensures pops == 4 ==> 0 in m && m[0] == Const(-3.0, s)
    decreases pops
  {
    if pops == 0 then map[3 := Const(1.0, s)]
    else if pops == 1 then DoubledAccum(s, 0)[1 := Const(1.0, s)]
    else if pops == 2 then DoubledAccum(s, 1)[0 := Const(-1.0, s)]
    else if pops == 3 then DoubledAccum(s, 2)[1 := Const(2.0, s)]
    else DoubledAccum(s, 3)[0 := Const(-3.0, s)]
  }

  /** Which edges each pop leaves: `p` pushes its edge to `x`; `x`, the target, pushes nothing. */
  lemma {:induction false} DoubledExpand(w: Graph, x: real, s: seq<nat>)
    requires DoubledWrapped(w, x, s)
    ensures Expand(w, 0, [Edge(1, 3)], 1) == [Edge(1, 3), Edge(0, 1)]
    ensures Expand(w, 0, [Edge(1, 3)], 0) == [Edge(1, 3)]
    ensures Expand(w, 0, [], 1) == [Edge(0, 1)]
    ensures Expand(w, 0, [], 0) == []
  {
    assert Inputs(w[1]) == [0];
  }

  /** Pop 1: the wrapper passes `p` a one; `p` is not the target and pushes its edge to `x`. */
  lemma {:induction false} DoubledPop1(w: Graph, s: seq<nat>)
    requires 0 !in s && Acyclic(w) && |w| == 4
    requires AccumGradSpec(w, 3, 1, DoubledAccum(s, 0)[3], map[]) == Ok(Some(Const(1.0, s)))
    requires Accumulate(DoubledAccum(s, 0), 1, Some(Const(1.0, s))) == Ok(DoubledAccum(s, 1))
    requires Expand(w, 0, [Edge(1, 3)], 1) == [Edge(1, 3), Edge(0, 1)]
    ensures Propagate(w, 0, map[], [Edge(1, 3), Edge(1, 3)], DoubledAccum(s, 0))
         == Propagate(w, 0, map[], [Edge(1, 3), Edge(0, 1)], DoubledAccum(s, 1))
  {
    assert [Edge(1, 3)] + [Edge(1, 3)] == [Edge(1, 3), Edge(1, 3)];
    PopStep(w, 0, map[], [Edge(1, 3), Edge(1, 3)], [Edge(1, 3)], Edge(1, 3), DoubledAccum(s, 0), Some(Const(1.0, s)), DoubledAccum(s, 1), [Edge(1, 3), Edge(0, 1)]);
  }

  /** The three facts pop 1 rests on: the sum passes a one, `p` gets its first entry and its edge to `x` is pushed. */
  lemma {:induction false} DoubledStep1(w: Graph, x: real, s: seq<nat>)
    requires DoubledWrapped(w, x, s)
    ensures AccumGradSpec(w, 3, 1, DoubledAccum(s, 0)[3], map[]) == Ok(Some(Const(1.0, s)))
    ensures Accumulate(DoubledAccum(s, 0), 1, Some(Const(1.0, s))) == Ok(DoubledAccum(s, 1))
    ensures Expand(w, 0, [Edge(1, 3)], 1) == [Edge(1, 3), Edge(0, 1)]
  {
    DoubledSumRule(w, x, s);
    AccumulateFresh(DoubledAccum(s, 0), 1, Const(1.0, s));
    DoubledExpand(w, x, s);
  }

  /** Pop 2: `p` passes its one to `x` as -1; `x` is the target and is not expanded. */
  lemma {:induction false} DoubledPop2(w: Graph, x: real, s: seq<nat>)
    requires DoubledWrapped(w, x, s)
    ensures Propagate(w, 0, map[], [Edge(1, 3), Edge(0, 1)], DoubledAccum(s, 1))
         == Propagate(w, 0, map[], [Edge(1, 3)], DoubledAccum(s, 2))
  {
    DoubledNegRule(w, x, s, 1.0);
    AccumulateFresh(DoubledAccum(s, 1), 0, Const(-1.0, s));
    DoubledExpand(w, x, s);
    assert [Edge(1, 3)] + [Edge(0, 1)] == [Edge(1, 3), Edge(0, 1)];
    PopStep(w, 0, map[], [Edge(1, 3), Edge(0, 1)], [Edge(1, 3)], Edge(0, 1), DoubledAccum(s, 1), Some(Const(-1.0, s)), DoubledAccum(s, 2), [Edge(1, 3)]);
  }

  /** Pop 3: `p` is reached again, its entry grows to 2 and it pushes its edge to `x` once more. */
  lemma {:induction false} DoubledPop3(w: Graph, s: seq<nat>)
    requires 0 !in s && Acyclic(w) && |w| == 4
    requires AccumGradSpec(w, 3, 1, DoubledAccum(s, 2)[3], map[]) == Ok(Some(Const(1.0, s)))
    requires Accumulate(DoubledAccum(s, 2), 1, Some(Const(1.0, s))) == Ok(DoubledAccum(s, 3))
    requires Expand(w, 0, [], 1) == [Edge(0, 1)]
    ensures Propagate(w, 0, map[], [Edge(1, 3)], DoubledAccum(s, 2))
         == Propagate(w, 0, map[], [Edge(0, 1)], DoubledAccum(s, 3))
  {
    assert [] + [Edge(1, 3)] == [Edge(1, 3)];
    PopStep(w, 0, map[], [Edge(1, 3)], [], Edge(1, 3), DoubledAccum(s, 2), Some(Const(1.0, s)), DoubledAccum(s, 3), [Edge(0, 1)]);
  }

  /** The three facts pop 3 rests on: the sum passes a one, `p` holds 1 + 1 = 2 and its edge to `x` is pushed. */
  lemma {:induction false} DoubledStep3(w: Graph, x: real, s: seq<nat>)
    requires DoubledWrapped(w, x, s)
    ensures AccumGradSpec(w, 3, 1, DoubledAccum(s, 2)[3], map[]) == Ok(Some(Const(1.0, s)))
    ensures Accumulate(DoubledAccum(s, 2), 1, Some(Const(1.0, s))) == Ok(DoubledAccum(s, 3))
    ensures Expand(w, 0, [], 1) == [Edge(0, 1)]
  {
    DoubledSumRule(w, x, s);
    AccumulateConst(DoubledAccum(s, 2), 1, 1.0, 1.0, s);
    DoubledExpand(w, x, s);
  }

  /** Pop 4: `p` passes its whole entry of 2 to `x` as -2, which adds up to -3; the stack is empty. */
  lemma {:induction false} DoubledPop4(w: Graph, x: real, s: seq<nat>)
    requires DoubledWrapped(w, x, s)
    ensures Propagate(w, 0, map[], [Edge(0, 1)], DoubledAccum(s, 3)) == Ok(DoubledAccum(s, 4))
  {
    DoubledNegRule(w, x, s, 2.0);
    AccumulateConst(DoubledAccum(s, 3), 0, -1.0, -2.0, s);
    DoubledExpand(w, x, s);
    assert [] + [Edge(0, 1)] == [Edge(0, 1)];
    PopStep(w, 0, map[], [Edge(0, 1)], [], Edge(0, 1), DoubledAccum(s, 3), Some(Const(-2.0, s)), DoubledAccum(s, 4), []);
  }

  /** The four pops on the doubled graph, from the two edges of `p` to the wrapper. */
  lemma {:induction false} DoubledPops(w: Graph, x: real, s: seq<nat>)
    requires DoubledWrapped(w, x, s)
    ensures Propagate(w, 0, map[], [Edge(1, 3), Edge(1, 3)], DoubledAccum(s, 0)) == Ok(DoubledAccum(s, 4))
  {
    DoubledStep1(w, x, s);
    DoubledPop1(w, s);
    DoubledPop2(w, x, s);
    DoubledStep3(w, x, s);
    DoubledPop3(w, s);
    DoubledPop4(w, x, s);
  }

  /** The walk on the doubled graph leaves -3 at `x`. */
  lemma {:induction false} DoubledWalk(x: real, s: seq<nat>)
    requires 0 !in s
    ensures Walk(DoubledGraph(x, s), 2, 0, map[], Const(1.0, s)) == Ok(DoubledAccum(s, 4))
  {
    var g := DoubledGraph(x, s);
    DoubledStack(g);
    DoubledPops(g + [Wrapper(2)], x, s);
  }

  /** The walk on a three-node graph whose root is `p + p` starts with both edges from `p` to the wrapper on the stack. */
  lemma {:induction false} DoubledStack(g: Graph)
    requires Acyclic(g) && |g| == 3 && g[2] == AddOp(1, 1)
    ensures InitialStack(g, 2) == [Edge(1, 3), Edge(1, 3)]
  {
    var kids := Inputs(g[2]);
    assert kids == [1, 1];
    var st := InitialStack(g, 2);
    assert |st| == 2 && st[0] == Edge(kids[0], 3) && st[1] == Edge(kids[1], 3);
  }

  /** The value of `r = p + p` with `p = -x`: `-2 * x` everywhere. */
  lemma {:induction false} DoubledForward(x: real, s: seq<nat>)
    requires 0 !in s
    ensures Eval(DoubledGraph(x, s), 2, map[]) == Ok(Const(-2.0 * x, s))
  {
    var g := DoubledGraph(x, s);
    IsConst(Mapped(Const(x, s), Negate), -x);
    assert Eval(g, 1, map[]) == Ok(Const(-x, s));
    ConstZip(-x, -x, s, Plus);
  }

  /**
   * `r = p + p` with `p = -x` is `-2 * x`, but `grad` returns -3 for `x`:
   * the walk pushes `p` once per use, expands it at each visit and passes
   * its running total on each time, so `x` receives -1 and then -2.
   */
  lemma {:induction false} DoubledPathGradient(x: real, s: seq<nat>)
    requires 0 !in s
    ensures var g := DoubledGraph(x, s);
      Eval(g, 2, map[]) == Ok(Const(-2.0 * x, s))
      && GradSpec(g, 2, 0, map[]) == Ok(Some(Const(-3.0, s)))
  {
    var g := DoubledGraph(x, s);
    var v := Const(-2.0 * x, s);
    DoubledForward(x, s);
    GradIsWalk(g, 2, 0, map[], v);
    assert New(1.0, v.shape).value == Const(1.0, s);
    DoubledWalk(x, s);
    assert Collect(Ok(DoubledAccum(s, 4)), 0) == Ok(Some(Const(-3.0, s)));
  }
}
