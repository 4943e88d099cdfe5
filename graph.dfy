/**
 * The computation graph: operator nodes, their forward rules, and the
 * memoised evaluation `value` / `eval`.
 *
 * Nodes live in an arena, a sequence of `Op` values in which every node
 * refers to its inputs by index and every input comes earlier than the node
 * that uses it, so the graph is acyclic. A node's identity, which the library
 * takes from its address, is its index. The compute cache, keyed by that
 * identity, is the class `ComputeCache` whose map the evaluation fills in.
 */
module Graph {
  import opened Outcomes
  import opened ArrayCore
  import opened Elementwise
  import opened ArrayOps
  import opened ArrayMatmul
  import opened Reduction

  /** The operators of the graph; operands are node indices. */
  datatype Op =
    | Variable(data: Array)
    | Placeholder(id: string)
    | AddOp(x: nat, y: nat)
    | SubOp(x: nat, y: nat)
    | MulOp(x: nat, y: nat)
    | DivOp(x: nat, y: nat)
    | MatMulOp(x: nat, y: nat)
    | AddScalarOp(x: nat, s: real)
    | SubScalarOp(x: nat, s: real)
    | MulScalarOp(x: nat, s: real)
    | DivScalarOp(x: nat, s: real)
    | NegOp(x: nat)
    | ReduceSumOp(x: nat, axis: Option<nat>, keepDims: bool)
    | ReduceMeanOp(x: nat, axis: Option<nat>, keepDims: bool)
    | Wrapper(x: nat)   // stands for node `x` without listing it as an input

  type Graph = seq<Op>

  /** The values supplied for placeholders, by id. */
  type Feed = map<string, Array>

  /** `get_inputs`: the operand nodes, in order; leaves and wrappers list none. */
  function Inputs(op: Op): (ins: seq<nat>)
    ensures |ins| <= 2
    ensures op.Variable? || op.Placeholder? || op.Wrapper? <==> ins == []
  {
    match op
    case Variable(_) => []
    case Placeholder(_) => []
    case AddOp(x, y) => [x, y]
    case SubOp(x, y) => [x, y]
    case MulOp(x, y) => [x, y]
    case DivOp(x, y) => [x, y]
    case MatMulOp(x, y) => [x, y]
    case AddScalarOp(x, _) => [x]
    case SubScalarOp(x, _) => [x]
    case MulScalarOp(x, _) => [x]
    case DivScalarOp(x, _) => [x]
    case NegOp(x) => [x]
    case ReduceSumOp(x, _, _) => [x]
    case ReduceMeanOp(x, _, _) => [x]
    case Wrapper(_) => []
  }

  /** Every node that `op` refers to comes before position `n`. */
  predicate RefsBelow(op: Op, n: nat)
    ensures RefsBelow(op, n) ==> forall j :: 0 <= j < |Inputs(op)| ==> Inputs(op)[j] < n
  {
    (!op.Variable? && !op.Placeholder? ==> op.x < n) &&
    (op.AddOp? || op.SubOp? || op.MulOp? || op.DivOp? || op.MatMulOp? ==> op.y < n)
  }

  /** Every node refers only to earlier nodes, so the graph has no cycle. */
  predicate Acyclic(g: Graph)
  {
    forall n :: 0 <= n < |g| ==> RefsBelow(g[n], n)
  }

  /** Node `b` is `a` or is reached from `a` by following inputs. */
  ghost predicate Reaches(g: Graph, a: nat, b: nat)
    requires Acyclic(g) && a < |g|
    decreases a
  {
    a == b || exists j :: 0 <= j < |Inputs(g[a])| && Reaches(g, Inputs(g[a])[j], b)
  }

  /** `unwrap_or_default` on the optional feed map. */
  function FeedOrEmpty(feed: Option<Feed>): (f: Feed)
    ensures feed.None? ==> f == map[]
    ensures feed.Some? ==> f == feed.value
  {
    if feed.Some? then feed.value else map[]
  }

  /** The operators with two node inputs. */
  predicate IsBinary(op: Op)
  {
    op.AddOp? || op.SubOp? || op.MulOp? || op.DivOp? || op.MatMulOp?
  }

  /** The operators with one node input. */
  predicate IsUnary(op: Op)
  {
    !op.Variable? && !op.Placeholder? && !op.Wrapper? && !IsBinary(op)
  }

  /** The forward rule of a two-input operator: the arithmetic is broadcast elementwise, the product batched. */
  function Binary(op: Op, v1: Array, v2: Array): (r: Result<Array>)
    requires IsBinary(op)
    ensures r.Err? ==> r.error == ShapeError
  {
    match op
    case AddOp(_, _) => ElementwiseSpec(v1, v2, Plus)
    case SubOp(_, _) => ElementwiseSpec(v1, v2, Minus)
    case MulOp(_, _) => ElementwiseSpec(v1, v2, Times)
    case DivOp(_, _) => ElementwiseSpec(v1, v2, Quotient)
    case MatMulOp(_, _) => MatmulSpec(v1, v2)
  }

  /** The forward rule of a one-input operator: the input combined with the scalar, negated or reduced. */
  function Unary(op: Op, v: Array): (r: Result<Array>)
    requires IsUnary(op)
    ensures r.Err? ==> r.error == ShapeError
  {
    match op
    case AddScalarOp(_, s) => Ok(ScalarResult(v, s, Plus))
    case SubScalarOp(_, s) => Ok(ScalarResult(v, s, Minus))
    case MulScalarOp(_, s) => Ok(ScalarResult(v, s, Times))
    case DivScalarOp(_, s) => Ok(ScalarResult(v, s, Quotient))
    case NegOp(_) => Ok(Mapped(v, Negate))
    case ReduceSumOp(_, axis, keepDims) => ReduceSpec(v, Plus, axis, keepDims)
    case ReduceMeanOp(_, axis, keepDims) => MeanSpec(v, axis, keepDims)
  }

  /**
   * The value of node `n`: each operator's `compute` applied to the values
   * of its inputs, evaluated first input first. A variable holds its array; a
   * placeholder takes the feed's array, of whatever shape, and fails when its
   * id is absent; a wrapper has the value of the node it wraps.
   */
  function Eval(g: Graph, n: nat, feed: Feed): (r: Result<Array>)
    requires Acyclic(g) && n < |g|
    ensures r.Err? ==> r.error == ShapeError || (r.error.MissingFeed? && r.error.id !in feed)
    decreases n
  {
    var op := g[n];
    if op.Variable? then Ok(op.data)
    else if op.Placeholder? then (if op.id in feed then Ok(feed[op.id]) else Err(MissingFeed(op.id)))
    else if op.Wrapper? then Eval(g, op.x, feed)
    else
      var v1 :- Eval(g, op.x, feed);
      if IsBinary(op) then
        var v2 :- Eval(g, op.y, feed);
        Binary(op, v1, v2)
      else
        Unary(op, v1)
  }

  /** The compute cache: the value of every node evaluated so far, by node. */
  class ComputeCache {
    var entries: map<nat, Array>

    constructor ()
      ensures entries == map[]
    {
      entries := map[];
    }

    /** Every cached array is the value of its node. */
    ghost predicate Sound(g: Graph, feed: Feed)
      reads this
      requires Acyclic(g)
    {
      forall k :: k in entries ==> k < |g| && Eval(g, k, feed) == Ok(entries[k])
    }
  }

  /**
   * `value`: on a cache hit, the cached array, leaving the cache as it is;
   * on a miss, the node's `compute`, whose array is then cached under the
   * node. Either way the result is the node's value.
   */
  method Value(g: Graph, n: nat, feed: Feed, cache: ComputeCache) returns (r: Result<Array>)
    requires Acyclic(g) && n < |g| && cache.Sound(g, feed)
    modifies cache
    ensures cache.Sound(g, feed)
    ensures r == Eval(g, n, feed)
    ensures n in old(cache.entries) ==> cache.entries == old(cache.entries)
    ensures r.Ok? ==> n in cache.entries
    decreases n, 1
  {
    if n in cache.entries {
      return Ok(cache.entries[n]);
    }
    var v :- Compute(g, n, feed, cache);
    cache.entries := cache.entries[n := v];
    r := Ok(v);
  }

  /** `compute`: the operator applied to the cached or computed values of its inputs. */
  method Compute(g: Graph, n: nat, feed: Feed, cache: ComputeCache) returns (r: Result<Array>)
    requires Acyclic(g) && n < |g| && cache.Sound(g, feed)
    modifies cache
    ensures cache.Sound(g, feed)
    ensures r == Eval(g, n, feed)
    decreases n, 0
  {
    var op := g[n];
    if op.Variable? {
      return Ok(op.data);
    } else if op.Placeholder? {
      if op.id !in feed {
        return Err(MissingFeed(op.id));
      }
      return Ok(feed[op.id]);
    } else if op.Wrapper? {
      r := Value(g, op.x, feed, cache);
      return;
    }
    var v1 :- Value(g, op.x, feed, cache);
    if IsBinary(op) {
      var v2 :- Value(g, op.y, feed, cache);
      r := ApplyBinary(op, v1, v2);
    } else {
      r := ApplyUnary(op, v1);
    }
  }

  /** The array operation behind a two-input operator. */
  method ApplyBinary(op: Op, v1: Array, v2: Array) returns (r: Result<Array>)
    requires IsBinary(op)
    ensures r == Binary(op, v1, v2)
  {
    match op
    case AddOp(_, _) => r := Add(v1, v2);
    case SubOp(_, _) => r := Sub(v1, v2);
    case MulOp(_, _) => r := Mul(v1, v2);
    case DivOp(_, _) => r := Div(v1, v2);
    case MatMulOp(_, _) => r := Matmul(v1, v2);
  }

  /** The array operation behind a one-input operator. */
  method ApplyUnary(op: Op, v: Array) returns (r: Result<Array>)
    requires IsUnary(op)
    ensures r == Unary(op, v)
  {
    match op
    case AddScalarOp(_, s) =>
      var sum := AddScalar(v, s);
      r := Ok(sum);
    case SubScalarOp(_, s) =>
      var diff := SubScalar(v, s);
      r := Ok(diff);
    case MulScalarOp(_, s) =>
      var prod := MulScalar(v, s);
      r := Ok(prod);
    case DivScalarOp(_, s) =>
      var quot := DivScalar(v, s);
      r := Ok(quot);
    case NegOp(_) =>
      var neg := Neg(v);
      r := Ok(neg);
    case ReduceSumOp(_, axis, keepDims) =>
      r := ReduceSum(v, axis, keepDims);
    case ReduceMeanOp(_, axis, keepDims) =>
      r := ReduceMean(v, axis, keepDims);
  }

  /** `eval`: the node's value, computed with a fresh, empty cache and the feed or an empty one. */
  method Evaluate(g: Graph, n: nat, feed: Option<Feed>) returns (r: Result<Array>)
    requires Acyclic(g) && n < |g|
    ensures r == Eval(g, n, FeedOrEmpty(feed))
  {
    var cache := new ComputeCache();
    r := Value(g, n, FeedOrEmpty(feed), cache);
  }

  // Properties of evaluation.

  /** Appending nodes to a graph changes the value of none of its existing nodes. */
  lemma {:induction false} EvalPrefix(g: Graph, h: Graph, n: nat, feed: Feed)
    requires Acyclic(g + h) && n < |g|
    ensures Acyclic(g)
    ensures Eval(g + h, n, feed) == Eval(g, n, feed)
    decreases n
  {
    forall m | 0 <= m < |g|
      ensures RefsBelow(g[m], m)
    {
      assert (g + h)[m] == g[m];
    }
    forall m | 0 <= m < n
      ensures Eval(g + h, m, feed) == Eval(g, m, feed)
    {
      EvalPrefix(g, h, m, feed);
    }
    assert (g + h)[n] == g[n];
  }

  /** A failure for want of a placeholder value names an id absent from the feed and held by a placeholder among the nodes up to `n`. */
  lemma {:induction false} MissingFeedNamesPlaceholder(g: Graph, n: nat, feed: Feed)
    requires Acyclic(g) && n < |g|
    requires Eval(g, n, feed).Err? && Eval(g, n, feed).error.MissingFeed?
    ensures Eval(g, n, feed).error.id !in feed
    ensures exists m :: 0 <= m <= n && g[m] == Placeholder(Eval(g, n, feed).error.id)
    decreases n
  {
    var id := Eval(g, n, feed).error.id;
    var ins := Inputs(g[n]);
    if |ins| > 0 && Eval(g, ins[0], feed).Err? {
      MissingFeedNamesPlaceholder(g, ins[0], feed);
    } else if |ins| > 1 && Eval(g, ins[1], feed).Err? {
      MissingFeedNamesPlaceholder(g, ins[1], feed);
    } else if g[n].Wrapper? {
      MissingFeedNamesPlaceholder(g, g[n].x, feed);
    } else if g[n].Placeholder? {
      assert g[n] == Placeholder(id);
    } else {
      assert false;
    }
  }

  /** When every placeholder up to node `n` has its id in the feed, evaluating `n` never fails for want of a value. */
  lemma FedGraphFindsEveryValue(g: Graph, n: nat, feed: Feed)
    requires Acyclic(g) && n < |g|
    requires forall m :: 0 <= m <= n && g[m].Placeholder? ==> g[m].id in feed
    ensures Eval(g, n, feed).Err? ==> Eval(g, n, feed).error == ShapeError
  {
    if Eval(g, n, feed).Err? && Eval(g, n, feed).error.MissingFeed? {
      MissingFeedNamesPlaceholder(g, n, feed);
    }
  }

  // Reachability.

  /** A node reached from `a` reaches on to each of its own inputs. */
  lemma {:induction false} ReachesExtend(g: Graph, a: nat, b: nat, c: nat)
    requires Acyclic(g) && a < |g| && b < |g| && Reaches(g, a, b) && c in Inputs(g[b])
    ensures Reaches(g, a, c)
    decreases a
  {
    if a == b {
      var j :| 0 <= j < |Inputs(g[a])| && Inputs(g[a])[j] == c;
      assert Reaches(g, Inputs(g[a])[j], c);
    } else {
      var j :| 0 <= j < |Inputs(g[a])| && Reaches(g, Inputs(g[a])[j], b);
      ReachesExtend(g, Inputs(g[a])[j], b, c);
    }
  }

  /** Appending nodes to a graph changes what none of its existing nodes reach. */
  lemma {:induction false} ReachesPrefix(g: Graph, h: Graph, a: nat, b: nat)
    requires Acyclic(g + h) && Acyclic(g) && a < |g|
    ensures Reaches(g + h, a, b) == Reaches(g, a, b)
    decreases a
  {
    assert (g + h)[a] == g[a];
    forall j | 0 <= j < |Inputs(g[a])|
      ensures Reaches(g + h, Inputs(g[a])[j], b) == Reaches(g, Inputs(g[a])[j], b)
    {
      ReachesPrefix(g, h, Inputs(g[a])[j], b);
    }
  }
}
