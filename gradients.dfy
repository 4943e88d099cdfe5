/**
 * Reverse-mode differentiation over the computation graph: each operator's
 * `compute_accum_grad`, and `grad`, which walks the graph from a root with an
 * explicit stack and sums the contributions each node receives.
 *
 * `grad` appends a wrapper of the root to the graph as a phantom parent that
 * holds the seed gradient (ones of the root's shape), pushes the root's
 * inputs, and then pops one (node, parent) edge at a time: the parent's
 * accumulated gradient goes through the parent's local rule, the result is
 * added to the node's entry or becomes it, and the node's own inputs are
 * pushed unless the node is the target. The function `Propagate` runs the
 * same walk as a recursion and is the specification the loop is proved
 * against.
 */
module Gradients {
  import opened Outcomes
  import opened ArrayCore
  import opened Elementwise
  import opened ArrayOps
  import opened ArrayMatmul
  import opened Graph

  /** The nodes a node's local rule answers for: its inputs, or for a wrapper those of the wrapped node. */
  function GradInputs(g: Graph, p: nat): (ins: seq<nat>)
    requires Acyclic(g) && p < |g|
    ensures !g[p].Wrapper? ==> ins == Inputs(g[p])
    decreases p
  {
    if g[p].Wrapper? then GradInputs(g, g[p].x) else Inputs(g[p])
  }

  /** `grad` times an array of `factor`s shaped like the value of node `n`. */
  function Scaled(g: Graph, n: nat, factor: real, grad: Array, feed: Feed): (r: Result<Option<Array>>)
    requires Acyclic(g) && n < |g|
    ensures r.Ok? ==> r.value.Some?
    ensures r.Err? ==> r.error == ShapeError || r.error.MissingFeed?
  {
    var v :- Eval(g, n, feed);
    var factors := New(factor, v.shape).value;
    var prod :- ElementwiseSpec(grad, factors, Times);
    Ok(Some(prod))
  }

  /** `grad` times the value of node `n`. */
  function TimesValue(g: Graph, n: nat, grad: Array, feed: Feed): (r: Result<Option<Array>>)
    requires Acyclic(g) && n < |g|
    ensures r.Ok? ==> r.value.Some?
    ensures r.Err? ==> r.error == ShapeError || r.error.MissingFeed?
  {
    var v :- Eval(g, n, feed);
    var prod :- ElementwiseSpec(grad, v, Times);
    Ok(Some(prod))
  }

  /** The gradient a division `x / y` passes to `x`: `grad * (ones / y)`, ones shaped like `x`. */
  function DivNumeratorGrad(g: Graph, x: nat, y: nat, grad: Array, feed: Feed): (r: Result<Option<Array>>)
    requires Acyclic(g) && x < |g| && y < |g|
    ensures r.Ok? ==> r.value.Some?
    ensures r.Err? ==> r.error == ShapeError || r.error.MissingFeed?
  {
    var v1 :- Eval(g, x, feed);
    var v2 :- Eval(g, y, feed);
    var ones := New(1.0, v1.shape).value;
    var q :- ElementwiseSpec(ones, v2, Quotient);
    var prod :- ElementwiseSpec(grad, q, Times);
    Ok(Some(prod))
  }

  /** The gradient a division `x / y` passes to `y`: `grad * (minus ones / (y * y))`, minus ones shaped like `x`. */
  function DivDenominatorGrad(g: Graph, x: nat, y: nat, grad: Array, feed: Feed): (r: Result<Option<Array>>)
    requires Acyclic(g) && x < |g| && y < |g|
    ensures r.Ok? ==> r.value.Some?
    ensures r.Err? ==> r.error == ShapeError || r.error.MissingFeed?
  {
    var v1 :- Eval(g, x, feed);
    var v2 :- Eval(g, y, feed);
    var minusOnes := New(-1.0, v1.shape).value;
    ElementwiseSameShape(v2, v2, Times);
    var sq := ElementwiseSpec(v2, v2, Times).value;
    var q :- ElementwiseSpec(minusOnes, sq, Quotient);
    var prod :- ElementwiseSpec(grad, q, Times);
    Ok(Some(prod))
  }

  /** The gradient a product `x . y` passes to `x`: `grad . transpose(y)`. */
  function MatMulLeftGrad(g: Graph, y: nat, grad: Array, feed: Feed): (r: Result<Option<Array>>)
    requires Acyclic(g) && y < |g|
    ensures r.Ok? ==> r.value.Some?
    ensures r.Err? ==> r.error == ShapeError || r.error.MissingFeed?
  {
    var v2 :- Eval(g, y, feed);
    var t :- TransposeSpec(v2);
    var prod :- MatmulSpec(grad, t);
    Ok(Some(prod))
  }

  /** The gradient a product `x . y` passes to `y`: `transpose(x) . grad`. */
  function MatMulRightGrad(g: Graph, x: nat, grad: Array, feed: Feed): (r: Result<Option<Array>>)
    requires Acyclic(g) && x < |g|
    ensures r.Ok? ==> r.value.Some?
    ensures r.Err? ==> r.error == ShapeError || r.error.MissingFeed?
  {
    var v1 :- Eval(g, x, feed);
    var t :- TransposeSpec(v1);
    var prod :- MatmulSpec(t, grad);
    Ok(Some(prod))
  }

  /**
   * The factor of the gradient a reduction to the mean passes on: one over
   * the axis itself when an axis is given, one over the element count
   * otherwise.
   */
  function MeanFactor(g: Graph, x: nat, axis: Option<nat>, grad: Array, feed: Feed): (r: Result<Option<Array>>)
    requires Acyclic(g) && x < |g|
    ensures r.Ok? ==> r.value.Some?
    ensures r.Err? ==> r.error == ShapeError || r.error.MissingFeed?
  {
    var v :- Eval(g, x, feed);
    var d := if axis.Some? then axis.value else |v.data|;
    var factors := New(Quotient(1.0, d as real), v.shape).value;
    var prod :- ElementwiseSpec(grad, factors, Times);
    Ok(Some(prod))
  }

  /** The local rule of a two-input operator, testing the first input before the second. */
  function BinaryGrad(g: Graph, p: nat, c: nat, grad: Array, feed: Feed): (r: Result<Option<Array>>)
    requires Acyclic(g) && p < |g| && IsBinary(g[p])
    ensures r.Ok? ==> (r.value.Some? <==> c in Inputs(g[p]))
    ensures r.Err? ==> r.error == ShapeError || r.error.MissingFeed?
  {
    var x, y := g[p].x, g[p].y;
    if c != x && c != y then Ok(None)
    else
      match g[p]
      case AddOp(_, _) => if c == x then Scaled(g, x, 1.0, grad, feed) else Scaled(g, y, 1.0, grad, feed)
      case SubOp(_, _) => if c == x then Scaled(g, y, -1.0, grad, feed) else Scaled(g, x, -1.0, grad, feed)
      case MulOp(_, _) => if c == x then TimesValue(g, y, grad, feed) else TimesValue(g, x, grad, feed)
      case DivOp(_, _) => if c == x then DivNumeratorGrad(g, x, y, grad, feed) else DivDenominatorGrad(g, x, y, grad, feed)
      case MatMulOp(_, _) => if c == x then MatMulLeftGrad(g, y, grad, feed) else MatMulRightGrad(g, x, grad, feed)
  }

  /** The local rule of a one-input operator: the gradient scaled by the operator's factor. */
  function UnaryGrad(g: Graph, p: nat, c: nat, grad: Array, feed: Feed): (r: Result<Option<Array>>)
    requires Acyclic(g) && p < |g| && IsUnary(g[p])
    ensures r.Ok? ==> (r.value.Some? <==> c in Inputs(g[p]))
    ensures r.Err? ==> r.error == ShapeError || r.error.MissingFeed?
  {
    var x := g[p].x;
    if c != x then Ok(None)
    else
      match g[p]
      case AddScalarOp(_, _) => Scaled(g, x, 1.0, grad, feed)
      case SubScalarOp(_, _) => Scaled(g, x, -1.0, grad, feed)
      case MulScalarOp(_, s) => Scaled(g, x, s, grad, feed)
      case DivScalarOp(_, s) => Scaled(g, x, Quotient(1.0, s), grad, feed)
      case NegOp(_) => Scaled(g, x, -1.0, grad, feed)
      case ReduceSumOp(_, _, _) => Scaled(g, x, 1.0, grad, feed)
      case ReduceMeanOp(_, axis, _) => MeanFactor(g, x, axis, grad, feed)
  }

  /**
   * `compute_accum_grad` of node `p` for node `c`, given the gradient `grad`
   * accumulated at `p`: nothing when `c` is not an input of `p` (leaves have
   * none), otherwise `p`'s local rule. A wrapper answers as the node it wraps.
   */
  function AccumGradSpec(g: Graph, p: nat, c: nat, grad: Array, feed: Feed): (r: Result<Option<Array>>)
    requires Acyclic(g) && p < |g|
    ensures r.Ok? ==> (r.value.Some? <==> c in GradInputs(g, p))
    ensures r.Err? ==> r.error == ShapeError || r.error.MissingFeed?
    decreases p
  {
    var op := g[p];
    if op.Variable? || op.Placeholder? then Ok(None)
    else if op.Wrapper? then AccumGradSpec(g, op.x, c, grad, feed)
    else if IsBinary(op) then BinaryGrad(g, p, c, grad, feed)
    else UnaryGrad(g, p, c, grad, feed)
  }

  // The walk.

  /** A stack entry: a node and the parent whose gradient it receives. */
  datatype Edge = Edge(node: nat, parent: nat)

  /** Every entry names two nodes of the graph. */
  predicate OnGraph(g: Graph, stack: seq<Edge>)
  {
    forall i :: 0 <= i < |stack| ==> stack[i].node < |g| && stack[i].parent < |g|
  }

  function Pow3(n: nat): (p: nat)
    ensures p >= 1
  {
    if n == 0 then 1 else 3 * Pow3(n - 1)
  }

  lemma {:induction false} Pow3Grows(k: nat, n: nat)
    requires k < n
    ensures 3 * Pow3(k) <= Pow3(n)
    decreases n
  {
    if k < n - 1 {
      Pow3Grows(k, n - 1);
    }
  }

  /** The termination measure of the walk: a node weighs three times as much as any of its inputs. */
  function Weight(stack: seq<Edge>): nat
  {
    if stack == [] then 0 else Weight(stack[..|stack| - 1]) + Pow3(stack[|stack| - 1].node)
  }

  /** `stack` with one edge `(kid, parent)` pushed for each of `kids`, in order. */
  function Pushed(stack: seq<Edge>, kids: seq<nat>, parent: nat): (s: seq<Edge>)
    ensures |s| == |stack| + |kids| && s[..|stack|] == stack
    ensures forall i :: 0 <= i < |kids| ==> s[|stack| + i] == Edge(kids[i], parent)
  {
    stack + seq(|kids|, i requires 0 <= i < |kids| => Edge(kids[i], parent))
  }

  lemma {:induction false} WeightPushed(stack: seq<Edge>, kids: seq<nat>, parent: nat)
    requires |kids| <= 2 && forall i :: 0 <= i < |kids| ==> kids[i] < parent
    ensures Weight(Pushed(stack, kids, parent)) < Weight(stack) + Pow3(parent)
  {
    var s := Pushed(stack, kids, parent);
    if |kids| == 1 {
      assert s[..|s| - 1] == stack;
      Pow3Grows(kids[0], parent);
    } else if |kids| == 2 {
      assert s[..|s| - 1][..|stack|] == stack;
      assert s[..|s| - 1] == stack + [Edge(kids[0], parent)];
      Pow3Grows(kids[0], parent);
      Pow3Grows(kids[1], parent);
    } else {
      assert s == stack;
    }
  }

  /** The stack after popping `node`: its inputs are pushed unless it is the target or has none. */
  function Expand(g: Graph, target: nat, rest: seq<Edge>, node: nat): (s: seq<Edge>)
    requires Acyclic(g) && node < |g| && OnGraph(g, rest)
    ensures OnGraph(g, s) && Weight(s) < Weight(rest) + Pow3(node)
    ensures |rest| <= |s| && s[..|rest|] == rest
  {
    var kids := Inputs(g[node]);
    if node != target && |kids| > 0 then
      InputsBelow(g, node);
      WeightPushed(rest, kids, node);
      PushedOnGraph(g, rest, kids, node);
      Pushed(rest, kids, node)
    else
      rest
  }

  /** The inputs of a node of an acyclic graph come before it. */
  lemma {:induction false} InputsBelow(g: Graph, node: nat)
    requires Acyclic(g) && node < |g|
    ensures forall i :: 0 <= i < |Inputs(g[node])| ==> Inputs(g[node])[i] < node
  {
    assert RefsBelow(g[node], node);
  }

  /** Pushing edges from a node of the graph to earlier nodes keeps the stack on the graph. */
  lemma {:induction false} PushedOnGraph(g: Graph, rest: seq<Edge>, kids: seq<nat>, node: nat)
    requires node < |g| && OnGraph(g, rest) && forall i :: 0 <= i < |kids| ==> kids[i] < node
    ensures OnGraph(g, Pushed(rest, kids, node))
  {
    var s := Pushed(rest, kids, node);
    forall i | 0 <= i < |s|
      ensures s[i].node < |g| && s[i].parent < |g|
    {
      if i < |rest| {
        assert s[i] == s[..|rest|][i];
      } else {
        assert s[i] == Edge(kids[i - |rest|], node);
      }
    }
  }

  /** Adds a contribution to the node's entry, or makes it the entry; nothing changes when there is none. */
  function Accumulate(accum: map<nat, Array>, node: nat, contribution: Option<Array>): (r: Result<map<nat, Array>>)
    ensures r.Ok? ==> r.value.Keys == accum.Keys + (if contribution.Some? then {node} else {})
    ensures r.Ok? ==> forall k :: k in accum && k != node ==> r.value[k] == accum[k]
    ensures r.Err? ==> r.error == ShapeError && contribution.Some? && node in accum
  {
    match contribution
    case None => Ok(accum)
    case Some(c) =>
      if node in accum then
        var sum :- ElementwiseSpec(accum[node], c, Plus);
        Ok(accum[node := sum])
      else
        Ok(accum[node := c])
  }

  /**
   * The walk from `stack` and the map `accum` to the final map: pops the last
   * edge, fails when its parent has no entry, passes the parent's entry
   * through the parent's local rule, accumulates the result at the node and
   * expands the node.
   */
  function Propagate(g: Graph, target: nat, feed: Feed, stack: seq<Edge>, accum: map<nat, Array>): (r: Result<map<nat, Array>>)
    requires Acyclic(g) && OnGraph(g, stack)
    ensures r.Ok? ==> accum.Keys <= r.value.Keys
    decreases Weight(stack)
  {
    if stack == [] then Ok(accum)
    else
      var e := stack[|stack| - 1];
      var rest := stack[..|stack| - 1];
      if e.parent !in accum then Err(MissingGradient)
      else
        var contribution :- AccumGradSpec(g, e.parent, e.node, accum[e.parent], feed);
        var accum' :- Accumulate(accum, e.node, contribution);
        Propagate(g, target, feed, Expand(g, target, rest, e.node), accum')
  }

  /** The graph with a wrapper of `root` appended is still acyclic. */
  lemma WrappedAcyclic(g: Graph, root: nat)
    requires Acyclic(g) && root < |g|
    ensures Acyclic(g + [Wrapper(root)])
  {
    var g' := g + [Wrapper(root)];
    forall n | 0 <= n < |g'|
      ensures RefsBelow(g'[n], n)
    {
      if n < |g| {
        assert g'[n] == g[n];
      }
    }
  }

  /** The root's inputs, each pushed with the phantom parent, the wrapper appended after the last node. */
  function InitialStack(g: Graph, root: nat): (s: seq<Edge>)
    requires Acyclic(g) && root < |g|
    ensures OnGraph(g + [Wrapper(root)], s)
    ensures |s| == |Inputs(g[root])|
    ensures forall i :: 0 <= i < |s| ==> s[i] == Edge(Inputs(g[root])[i], |g|)
  {
    Pushed([], Inputs(g[root]), |g|)
  }

  /** The outcome of `grad` once the walk has ended with `walk`: the target's entry, if any. */
  function Collect(walk: Result<map<nat, Array>>, target: nat): Result<Option<Array>>
  {
    var accum :- walk;
    Ok(if target in accum then Some(accum[target]) else None)
  }

  /**
   * `grad`: the gradient of `root` with respect to `target`. Fails when the
   * root cannot be evaluated; ones of the root's shape when the two are the
   * same node; otherwise the target's entry after the walk from the root's
   * inputs, or nothing when the target received no contribution.
   */
  function GradSpec(g: Graph, root: nat, target: nat, feed: Feed): (r: Result<Option<Array>>)
    requires Acyclic(g) && root < |g| && target < |g|
    ensures Eval(g, root, feed).Err? ==> r == Err(Eval(g, root, feed).error)
    ensures root == target && Eval(g, root, feed).Ok? ==>
      r.Ok? && r.value.Some? && r.value.value.shape == Eval(g, root, feed).value.shape &&
      forall k :: 0 <= k < |r.value.value.data| ==> r.value.value.data[k] == 1.0
  {
    var v :- Eval(g, root, feed);
    var seed := New(1.0, v.shape).value;
    if root == target then Ok(Some(seed)) else Collect(Walk(g, root, target, feed, seed), target)
  }

  /** The walk from the root's inputs, the phantom parent holding `seed`. */
  function Walk(g: Graph, root: nat, target: nat, feed: Feed, seed: Array): Result<map<nat, Array>>
    requires Acyclic(g) && root < |g|
  {
    WrappedAcyclic(g, root);
    Propagate(g + [Wrapper(root)], target, feed, InitialStack(g, root), map[|g| := seed])
  }

  // The local rules as the library runs them, reading input values through the compute cache.

  method ScaledGrad(g: Graph, n: nat, factor: real, grad: Array, feed: Feed, cache: ComputeCache) returns (r: Result<Option<Array>>)
    requires Acyclic(g) && n < |g| && cache.Sound(g, feed)
    modifies cache
    ensures cache.Sound(g, feed) && r == Scaled(g, n, factor, grad, feed)
  {
    var v :- Value(g, n, feed, cache);
    var factors := New(factor, v.shape).value;
    var prod :- Mul(grad, factors);
    r := Ok(Some(prod));
  }

  method TimesValueGrad(g: Graph, n: nat, grad: Array, feed: Feed, cache: ComputeCache) returns (r: Result<Option<Array>>)
    requires Acyclic(g) && n < |g| && cache.Sound(g, feed)
    modifies cache
    ensures cache.Sound(g, feed) && r == TimesValue(g, n, grad, feed)
  {
    var v :- Value(g, n, feed, cache);
    var prod :- Mul(grad, v);
    r := Ok(Some(prod));
  }

  method DivNumerator(g: Graph, x: nat, y: nat, grad: Array, feed: Feed, cache: ComputeCache) returns (r: Result<Option<Array>>)
    requires Acyclic(g) && x < |g| && y < |g| && cache.Sound(g, feed)
    modifies cache
    ensures cache.Sound(g, feed) && r == DivNumeratorGrad(g, x, y, grad, feed)
  {
    var v1 :- Value(g, x, feed, cache);
    var v2 :- Value(g, y, feed, cache);
    var ones := New(1.0, v1.shape).value;
    var q :- Div(ones, v2);
    var prod :- Mul(grad, q);
    r := Ok(Some(prod));
  }

  method DivDenominator(g: Graph, x: nat, y: nat, grad: Array, feed: Feed, cache: ComputeCache) returns (r: Result<Option<Array>>)
    requires Acyclic(g) && x < |g| && y < |g| && cache.Sound(g, feed)
    modifies cache
    ensures cache.Sound(g, feed) && r == DivDenominatorGrad(g, x, y, grad, feed)
  {
    var v1 :- Value(g, x, feed, cache);
    var v2 :- Value(g, y, feed, cache);
    var minusOnes := New(-1.0, v1.shape).value;
    ElementwiseSameShape(v2, v2, Times);
    var sq := Mul(v2, v2);
    var q :- Div(minusOnes, sq.value);
    var prod :- Mul(grad, q);
    r := Ok(Some(prod));
  }

  method MatMulLeft(g: Graph, y: nat, grad: Array, feed: Feed, cache: ComputeCache) returns (r: Result<Option<Array>>)
    requires Acyclic(g) && y < |g| && cache.Sound(g, feed)
    modifies cache
    ensures cache.Sound(g, feed) && r == MatMulLeftGrad(g, y, grad, feed)
  {
    var v2 :- Value(g, y, feed, cache);
    var t :- Transpose(v2);
    var prod :- Matmul(grad, t);
    r := Ok(Some(prod));
  }

  method MatMulRight(g: Graph, x: nat, grad: Array, feed: Feed, cache: ComputeCache) returns (r: Result<Option<Array>>)
    requires Acyclic(g) && x < |g| && cache.Sound(g, feed)
    modifies cache
    ensures cache.Sound(g, feed) && r == MatMulRightGrad(g, x, grad, feed)
  {
    var v1 :- Value(g, x, feed, cache);
    var t :- Transpose(v1);
    var prod :- Matmul(t, grad);
    r := Ok(Some(prod));
  }

  method MeanGrad(g: Graph, x: nat, axis: Option<nat>, grad: Array, feed: Feed, cache: ComputeCache) returns (r: Result<Option<Array>>)
    requires Acyclic(g) && x < |g| && cache.Sound(g, feed)
    modifies cache
    ensures cache.Sound(g, feed) && r == MeanFactor(g, x, axis, grad, feed)
  {
    var v :- Value(g, x, feed, cache);
    var d := if axis.Some? then axis.value else |v.data|;
    var factors := New(Quotient(1.0, d as real), v.shape).value;
    var prod :- Mul(grad, factors);
    r := Ok(Some(prod));
  }

  method BinaryAccumGrad(g: Graph, p: nat, c: nat, grad: Array, feed: Feed, cache: ComputeCache) returns (r: Result<Option<Array>>)
    requires Acyclic(g) && p < |g| && IsBinary(g[p]) && cache.Sound(g, feed)
    modifies cache
    ensures cache.Sound(g, feed) && r == BinaryGrad(g, p, c, grad, feed)
  {
    var x, y := g[p].x, g[p].y;
    if c != x && c != y {
      return Ok(None);
    }
    match g[p]
    case AddOp(_, _) =>
      if c == x { r := ScaledGrad(g, x, 1.0, grad, feed, cache); } else { r := ScaledGrad(g, y, 1.0, grad, feed, cache); }
    case SubOp(_, _) =>
      if c == x { r := ScaledGrad(g, y, -1.0, grad, feed, cache); } else { r := ScaledGrad(g, x, -1.0, grad, feed, cache); }
    case MulOp(_, _) =>
      if c == x { r := TimesValueGrad(g, y, grad, feed, cache); } else { r := TimesValueGrad(g, x, grad, feed, cache); }
    case DivOp(_, _) =>
      if c == x { r := DivNumerator(g, x, y, grad, feed, cache); } else { r := DivDenominator(g, x, y, grad, feed, cache); }
    case MatMulOp(_, _) =>
      if c == x { r := MatMulLeft(g, y, grad, feed, cache); } else { r := MatMulRight(g, x, grad, feed, cache); }
  }

  method UnaryAccumGrad(g: Graph, p: nat, c: nat, grad: Array, feed: Feed, cache: ComputeCache) returns (r: Result<Option<Array>>)
    requires Acyclic(g) && p < |g| && IsUnary(g[p]) && cache.Sound(g, feed)
    modifies cache
    ensures cache.Sound(g, feed) && r == UnaryGrad(g, p, c, grad, feed)
  {
    var x := g[p].x;
    if c != x {
      return Ok(None);
    }
    match g[p]
    case AddScalarOp(_, _) => r := ScaledGrad(g, x, 1.0, grad, feed, cache);
    case SubScalarOp(_, _) => r := ScaledGrad(g, x, -1.0, grad, feed, cache);
    case MulScalarOp(_, s) => r := ScaledGrad(g, x, s, grad, feed, cache);
    case DivScalarOp(_, s) => r := ScaledGrad(g, x, Quotient(1.0, s), grad, feed, cache);
    case NegOp(_) => r := ScaledGrad(g, x, -1.0, grad, feed, cache);
    case ReduceSumOp(_, _, _) => r := ScaledGrad(g, x, 1.0, grad, feed, cache);
    case ReduceMeanOp(_, axis, _) => r := MeanGrad(g, x, axis, grad, feed, cache);
  }

  /** `compute_accum_grad`, reading the input values it needs through the cache. */
  method AccumGrad(g: Graph, p: nat, c: nat, grad: Array, feed: Feed, cache: ComputeCache) returns (r: Result<Option<Array>>)
    requires Acyclic(g) && p < |g| && cache.Sound(g, feed)
    modifies cache
    ensures cache.Sound(g, feed) && r == AccumGradSpec(g, p, c, grad, feed)
    decreases p
  {
    var op := g[p];
    if op.Variable? || op.Placeholder? {
      r := Ok(None);
    } else if op.Wrapper? {
      r := AccumGrad(g, op.x, c, grad, feed, cache);
    } else if IsBinary(op) {
      r := BinaryAccumGrad(g, p, c, grad, feed, cache);
    } else {
      r := UnaryAccumGrad(g, p, c, grad, feed, cache);
    }
  }


  /** Pushes one edge `(kid, parent)` for each of `kids`, in order. */
  method PushAll(stack: seq<Edge>, kids: seq<nat>, parent: nat) returns (s: seq<Edge>)
    ensures s == Pushed(stack, kids, parent)
  {
    s := stack;
    for i := 0 to |kids|
      invariant s == Pushed(stack, kids[..i], parent)
    {
      s := s + [Edge(kids[i], parent)];
    }
    assert kids[..|kids|] == kids;
  }

  /** A cache sound for a graph stays sound once nodes are appended. */
  lemma CacheCarriesOver(g: Graph, h: Graph, feed: Feed, cache: ComputeCache)
    requires Acyclic(g + h) && Acyclic(g) && cache.Sound(g, feed)
    ensures cache.Sound(g + h, feed)
  {
    forall k | k in cache.entries
      ensures k < |g + h| && Eval(g + h, k, feed) == Ok(cache.entries[k])
    {
      EvalPrefix(g, h, k, feed);
    }
  }

  /** Once the root evaluates, `grad` of a different target is what the walk from the root's inputs leaves at the target. */
  lemma GradStart(g: Graph, root: nat, target: nat, feed: Feed, seed: Array)
    requires Acyclic(g) && root < |g| && target < |g| && root != target
    requires Eval(g, root, feed).Ok? && seed == New(1.0, Eval(g, root, feed).value.shape).value
    ensures Acyclic(g + [Wrapper(root)])
    ensures GradSpec(g, root, target, feed) ==
      Collect(Propagate(g + [Wrapper(root)], target, feed, InitialStack(g, root), map[|g| := seed]), target)
  {
    WrappedAcyclic(g, root);
    assert GradSpec(g, root, target, feed) == Collect(Walk(g, root, target, feed, seed), target);
  }

  /**
   * `grad`: computes the root with a fresh cache, seeds the phantom parent
   * with ones of the root's shape, and drains the stack of edges, summing
   * each contribution into the map; the result is the target's entry.
   */
  method Grad(g: Graph, root: nat, target: nat, feed: Option<Feed>) returns (r: Result<Option<Array>>)
    requires Acyclic(g) && root < |g| && target < |g|
    ensures r == GradSpec(g, root, target, FeedOrEmpty(feed))
  {
    var f := FeedOrEmpty(feed);
    var cache := new ComputeCache();
    var v :- Compute(g, root, f, cache);
    var seed := New(1.0, v.shape).value;
    if root == target {
      return Ok(Some(seed));
    }
    var phantom := |g|;
    var g' := g + [Wrapper(root)];
    GradStart(g, root, target, f, seed);
    CacheCarriesOver(g, [Wrapper(root)], f, cache);
    var stack := PushAll([], Inputs(g[root]), phantom);
    var accum :- Drain(g', target, f, cache, stack, map[phantom := seed]);
    r := Ok(if target in accum then Some(accum[target]) else None);
  }

  /** The loop of `grad`: pops edges until the stack is empty. */
  method Drain(g: Graph, target: nat, feed: Feed, cache: ComputeCache, stack: seq<Edge>, accum: map<nat, Array>)
      returns (r: Result<map<nat, Array>>)
    requires Acyclic(g) && OnGraph(g, stack) && cache.Sound(g, feed)
    modifies cache
    ensures r == Propagate(g, target, feed, stack, accum)
  {
    var stack, accum := stack, accum;
    ghost var walk := Propagate(g, target, feed, stack, accum);
    while stack != []
      invariant OnGraph(g, stack) && cache.Sound(g, feed)
      invariant Propagate(g, target, feed, stack, accum) == walk
      decreases Weight(stack)
    {
      var popped :- PopEdge(g, target, feed, cache, stack, accum);
      stack, accum := popped.0, popped.1;
    }
    r := Ok(accum);
  }


  /**
   * One turn of the loop of `grad`: pops the last edge, fails when its
   * parent has no entry, asks the parent's rule for the node's contribution,
   * adds it into the node's entry or makes it the entry, and stacks the
   * node's inputs unless the node is the target.
   */
  method PopEdge(g: Graph, target: nat, feed: Feed, cache: ComputeCache, stack: seq<Edge>, accum: map<nat, Array>)
      returns (r: Result<(seq<Edge>, map<nat, Array>)>)
    requires Acyclic(g) && OnGraph(g, stack) && stack != [] && cache.Sound(g, feed)
    modifies cache
    ensures cache.Sound(g, feed)
    ensures r.Err? ==> Propagate(g, target, feed, stack, accum) == Err(r.error)
    ensures r.Ok? ==> OnGraph(g, r.value.0) && Weight(r.value.0) < Weight(stack)
    ensures r.Ok? ==> Propagate(g, target, feed, r.value.0, r.value.1) == Propagate(g, target, feed, stack, accum)
  {
    var e := stack[|stack| - 1];
    var rest := stack[..|stack| - 1];
    if e.parent !in accum {
      return Err(MissingGradient);
    }
    var contribution :- AccumGrad(g, e.parent, e.node, accum[e.parent], feed, cache);
    var accum' := accum;
    if contribution.Some? {
      if e.node in accum {
        var sum :- Add(accum[e.node], contribution.value);
        accum' := accum[e.node := sum];
      } else {
        accum' := accum[e.node := contribution.value];
      }
    }
    assert Accumulate(accum, e.node, contribution) == Ok(accum');
    var next := rest;
    var kids := Inputs(g[e.node]);
    if e.node != target && |kids| > 0 {
      next := PushAll(rest, kids, e.node);
    }
    assert next == Expand(g, target, rest, e.node);
    r := Ok((next, accum'));
  }

  // What the walk finds.

  /** Every stacked parent has an entry and its rule answers for its node; every stacked node is reached from `origin`. */
  ghost predicate StackInvariant(g: Graph, origin: nat, stack: seq<Edge>, accum: map<nat, Array>)
    requires Acyclic(g) && origin < |g| && OnGraph(g, stack)
  {
    (forall i :: 0 <= i < |stack| ==> stack[i].parent in accum && stack[i].node in GradInputs(g, stack[i].parent)) &&
    (forall i :: 0 <= i < |stack| ==> Reaches(g, origin, stack[i].node))
  }

  /** The target has an entry only if `origin` reaches it, and if `origin` reaches it, it has an entry or a stacked node reaches it. */
  ghost predicate TargetInvariant(g: Graph, origin: nat, target: nat, stack: seq<Edge>, accum: map<nat, Array>)
    requires Acyclic(g) && origin < |g| && OnGraph(g, stack)
  {
    (target in accum ==> Reaches(g, origin, target)) &&
    (Reaches(g, origin, target) ==> target in accum || exists i :: 0 <= i < |stack| && Reaches(g, stack[i].node, target))
  }

  /** The facts the walk keeps. */
  ghost predicate WalkInvariant(g: Graph, origin: nat, target: nat, stack: seq<Edge>, accum: map<nat, Array>)
    requires Acyclic(g) && origin < |g| && OnGraph(g, stack)
  {
    StackInvariant(g, origin, stack, accum) && TargetInvariant(g, origin, target, stack, accum)
  }

  /** Popping a node, giving it an entry and stacking its inputs keeps the stack facts. */
  lemma {:induction false} StackStep(g: Graph, origin: nat, target: nat, stack: seq<Edge>, accum: map<nat, Array>,
                                     accum': map<nat, Array>)
    requires Acyclic(g) && origin < |g| && OnGraph(g, stack) && stack != []
    requires StackInvariant(g, origin, stack, accum)
    requires accum.Keys + {stack[|stack| - 1].node} == accum'.Keys
    ensures OnGraph(g, Expand(g, target, stack[..|stack| - 1], stack[|stack| - 1].node))
    ensures StackInvariant(g, origin, Expand(g, target, stack[..|stack| - 1], stack[|stack| - 1].node), accum')
  {
    var e := stack[|stack| - 1];
    var rest := stack[..|stack| - 1];
    assert Reaches(g, origin, e.node);
    StackPrefix(g, origin, stack, rest, accum, accum');
    var kids := Inputs(g[e.node]);
    if e.node != target && |kids| > 0 {
      InputsBelow(g, e.node);
      PushedOnGraph(g, rest, kids, e.node);
      StackPushed(g, origin, rest, e.node, accum');
    }
  }

  /** The invariant survives dropping the top edge and adding entries. */
  lemma {:induction false} StackPrefix(g: Graph, origin: nat, stack: seq<Edge>, rest: seq<Edge>,
                                       accum: map<nat, Array>, accum': map<nat, Array>)
    requires Acyclic(g) && origin < |g| && OnGraph(g, stack) && stack != [] && rest == stack[..|stack| - 1]
    requires StackInvariant(g, origin, stack, accum) && accum.Keys <= accum'.Keys
    ensures OnGraph(g, rest) && StackInvariant(g, origin, rest, accum')
  {
    forall i | 0 <= i < |rest|
      ensures rest[i].parent in accum' && rest[i].node in GradInputs(g, rest[i].parent)
      ensures Reaches(g, origin, rest[i].node)
    {
      assert rest[i] == stack[i];
    }
  }

  /** Stacking the inputs of a reached node that has an entry keeps the invariant. */
  lemma {:induction false} StackPushed(g: Graph, origin: nat, rest: seq<Edge>, node: nat, accum: map<nat, Array>)
    requires Acyclic(g) && origin < |g| && node < |g| && OnGraph(g, rest)
    requires OnGraph(g, Pushed(rest, Inputs(g[node]), node))
    requires StackInvariant(g, origin, rest, accum) && node in accum && Reaches(g, origin, node)
    ensures StackInvariant(g, origin, Pushed(rest, Inputs(g[node]), node), accum)
  {
    var kids := Inputs(g[node]);
    var next := Pushed(rest, kids, node);
    forall i | 0 <= i < |next|
      ensures next[i].parent in accum && next[i].node in GradInputs(g, next[i].parent)
      ensures Reaches(g, origin, next[i].node)
    {
      if i < |rest| {
        assert next[i] == next[..|rest|][i] == rest[i];
      } else {
        assert next[i] == Edge(kids[i - |rest|], node);
        ReachesExtend(g, origin, node, kids[i - |rest|]);
      }
    }
  }

  /** A node other than `b` that reaches `b` has an input that reaches `b`. */
  lemma ReachesThroughInput(g: Graph, a: nat, b: nat) returns (j: nat)
    requires Acyclic(g) && a < |g| && a != b && Reaches(g, a, b)
    ensures j < |Inputs(g[a])| && Reaches(g, Inputs(g[a])[j], b)
  {
    j :| 0 <= j < |Inputs(g[a])| && Reaches(g, Inputs(g[a])[j], b);
  }

  /** Popping a node, giving it an entry and stacking its inputs unless it is the target keeps the target facts. */
  lemma {:induction false} TargetStep(g: Graph, origin: nat, target: nat, stack: seq<Edge>, accum: map<nat, Array>,
                                      accum': map<nat, Array>)
    requires Acyclic(g) && origin < |g| && OnGraph(g, stack) && stack != []
    requires Reaches(g, origin, stack[|stack| - 1].node)
    requires TargetInvariant(g, origin, target, stack, accum)
    requires accum.Keys + {stack[|stack| - 1].node} == accum'.Keys
    ensures OnGraph(g, Expand(g, target, stack[..|stack| - 1], stack[|stack| - 1].node))
    ensures TargetInvariant(g, origin, target, Expand(g, target, stack[..|stack| - 1], stack[|stack| - 1].node), accum')
  {
    var e := stack[|stack| - 1];
    var rest := stack[..|stack| - 1];
    var next := Expand(g, target, rest, e.node);
    if Reaches(g, origin, target) && target !in accum' {
      var i :| 0 <= i < |stack| && Reaches(g, stack[i].node, target);
      if i < |rest| {
        assert next[i] == stack[i];
      } else {
        var kids := Inputs(g[e.node]);
        assert stack[i] == e;
        var j := ReachesThroughInput(g, e.node, target);
        assert next == Pushed(rest, kids, e.node);
        assert next[|rest| + j] == Edge(kids[j], e.node);
      }
    }
  }

  /** The walk never misses a parent's entry, and it gives the target an entry exactly when `origin` reaches it. */
  lemma {:induction false} PropagateFinds(g: Graph, origin: nat, target: nat, feed: Feed, stack: seq<Edge>, accum: map<nat, Array>)
    requires Acyclic(g) && origin < |g| && target < |g| && OnGraph(g, stack)
    requires WalkInvariant(g, origin, target, stack, accum)
    ensures Propagate(g, target, feed, stack, accum) != Err(MissingGradient)
    ensures Propagate(g, target, feed, stack, accum).Ok? ==>
      (target in Propagate(g, target, feed, stack, accum).value <==> Reaches(g, origin, target))
    decreases Weight(stack)
  {
    if stack == [] {
      return;
    }
    var e := stack[|stack| - 1];
    var rest := stack[..|stack| - 1];
    assert e.parent in accum && e.node in GradInputs(g, e.parent);
    var contribution := AccumGradSpec(g, e.parent, e.node, accum[e.parent], feed);
    if contribution.Err? {
      return;
    }
    var accum' := Accumulate(accum, e.node, contribution.value);
    if accum'.Err? {
      return;
    }
    StackStep(g, origin, target, stack, accum, accum'.value);
    TargetStep(g, origin, target, stack, accum, accum'.value);
    PropagateFinds(g, origin, target, feed, Expand(g, target, rest, e.node), accum'.value);
  }

  /** The walk's invariant holds at the start: the phantom parent has the only entry and the root's inputs are stacked. */
  lemma {:induction false} WalkStart(g: Graph, root: nat, target: nat, seed: Array)
    requires Acyclic(g) && root < |g| && target < |g| && root != target
    ensures Acyclic(g + [Wrapper(root)])
    ensures WalkInvariant(g + [Wrapper(root)], root, target, InitialStack(g, root), map[|g| := seed])
    ensures Reaches(g + [Wrapper(root)], root, target) == Reaches(g, root, target)
  {
    WrappedAcyclic(g, root);
    var g' := g + [Wrapper(root)];
    var stack := InitialStack(g, root);
    var accum: map<nat, Array> := map[|g| := seed];
    var kids := Inputs(g[root]);
    assert g'[root] == g[root] && g'[|g|] == Wrapper(root);
    ReachesPrefix(g, [Wrapper(root)], root, target);
    forall i | 0 <= i < |stack|
      ensures stack[i].parent in accum && stack[i].node in GradInputs(g', stack[i].parent)
      ensures Reaches(g', root, stack[i].node)
    {
      assert stack[i].node == kids[i];
      assert Reaches(g', kids[i], kids[i]);
    }
    if Reaches(g', root, target) {
      var j :| 0 <= j < |kids| && Reaches(g', kids[j], target);
      assert stack[j].node == kids[j];
    }
  }

  /** The walk from the root's inputs never misses a parent's entry and gives the target an entry exactly when the root reaches it. */
  lemma {:induction false} WalkFinds(g: Graph, root: nat, target: nat, feed: Feed, seed: Array)
    requires Acyclic(g) && root < |g| && target < |g| && root != target
    ensures Walk(g, root, target, feed, seed) != Err(MissingGradient)
    ensures Walk(g, root, target, feed, seed).Ok? ==>
      (target in Walk(g, root, target, feed, seed).value <==> Reaches(g, root, target))
  {
    WalkStart(g, root, target, seed);
    PropagateFinds(g + [Wrapper(root)], root, target, feed, InitialStack(g, root), map[|g| := seed]);
  }

  /**
   * `grad` never fails for want of a parent's gradient, and when it succeeds
   * it returns a gradient exactly when the target is the root or is reached
   * from the root through inputs; otherwise it returns nothing.
   */
  lemma {:induction false} GradFindsReachable(g: Graph, root: nat, target: nat, feed: Feed)
    requires Acyclic(g) && root < |g| && target < |g|
    ensures GradSpec(g, root, target, feed) != Err(MissingGradient)
    ensures GradSpec(g, root, target, feed).Ok? ==>
      (GradSpec(g, root, target, feed).value.Some? <==> Reaches(g, root, target))
  {
    var v := Eval(g, root, feed);
    if v.Err? {
      assert GradSpec(g, root, target, feed) == Err(v.error);
    } else if root == target {
      assert Reaches(g, root, target);
    } else {
      var seed := New(1.0, v.value.shape).value;
      WalkFinds(g, root, target, feed, seed);
      assert GradSpec(g, root, target, feed) == Collect(Walk(g, root, target, feed, seed), target);
    }
  }
}
