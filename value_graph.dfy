/**
 * The scalar computation graph of the autodiff engine (src/core.py).
 *
 * Every `Value` of the source is a node of an append-only arena: a node is
 * identified by its index, and the operands of a node always have smaller
 * indices, so the graph is acyclic by construction.  The closure that the
 * source stores in `_backward` becomes the tagged `Rule` of the node.
 */
module ValueGraph {

  /** How a node was produced, with the operand indices (and the exponent). */
  datatype Rule = Leaf | Add(i: nat, j: nat) | Mul(i: nat, j: nat) | Pow(i: nat, k: nat) | Relu(i: nat)

  /** A `Value`: its forward data and the rule that produced it. */
  datatype Node = Node(data: real, rule: Rule)

  datatype Fault = ExponentNotNumber | ValueNotIterable

  datatype Result<T> = Ok(value: T) | Err(fault: Fault)

  /** The `_prev` set: the operands as a set, so `a + a` has one child. */
  function Children(r: Rule): (cs: set<nat>)
    ensures cs == {} <==> r.Leaf?
  {
    match r
    case Leaf => {}
    case Add(i, j) => {i, j}
    case Mul(i, j) => {i, j}
    case Pow(i, _) => {i}
    case Relu(i) => {i}
  }

  /** The `_op` label: empty exactly for a leaf, which is what drawing tests. */
  function Op(r: Rule): (s: string)
    ensures s == "" <==> r.Leaf?
  {
    match r
    case Leaf => ""
    case Add(_, _) => "+"
    case Mul(_, _) => "*"
    case Pow(_, _) => "**"
    case Relu(_) => "relu"
  }

  /** Every operand of rule `r` is an index below `w`. */
  predicate RuleBelow(r: Rule, w: nat)
  {
    match r
    case Leaf => true
    case Add(i, j) => i < w && j < w
    case Mul(i, j) => i < w && j < w
    case Pow(i, _) => i < w
    case Relu(i) => i < w
  }

  /** The arena is acyclic: each node only refers to earlier nodes. */
  predicate OperandsBelow(nodes: seq<Node>)
  {
    forall w :: 0 <= w < |nodes| ==> RuleBelow(nodes[w].rule, w)
  }

  lemma ChildrenBelow(r: Rule, w: nat)
    requires RuleBelow(r, w)
    ensures forall c :: c in Children(r) ==> c < w
  {
  }

  function Power(x: real, n: nat): real
  {
    if n == 0 then 1.0 else x * Power(x, n - 1)
  }

  /** The forward value `relu` computes: 0 below zero, the input otherwise. */
  function ReluValue(x: real): real
  {
    if x < 0.0 then 0.0 else x
  }

  /** The forward value a non-leaf rule computes from its operands' data. */
  function Forward(nodes: seq<Node>, r: Rule): (f: real)
    requires RuleBelow(r, |nodes|)
    ensures r.Relu? ==> f >= 0.0
    ensures r.Mul? && r.i == r.j ==> f >= 0.0
    ensures r.Pow? && r.k == 1 ==> f == nodes[r.i].data
  {
    match r
    case Leaf => 0.0
    case Add(i, j) => nodes[i].data + nodes[j].data
    case Mul(i, j) => nodes[i].data * nodes[j].data
    case Pow(i, k) =>
      assert k == 1 ==> Power(nodes[i].data, k) == nodes[i].data * Power(nodes[i].data, 0);
      Power(nodes[i].data, k)
    case Relu(i) => ReluValue(nodes[i].data)
  }

  /** Every derived node holds the forward value of its rule. */
  predicate Consistent(nodes: seq<Node>)
    requires OperandsBelow(nodes)
  {
    forall w :: 0 <= w < |nodes| && !nodes[w].rule.Leaf? ==> nodes[w].data == Forward(nodes, nodes[w].rule)
  }

  /** Appending a node keeps the arena acyclic and, if the node is a leaf or holds its forward value, consistent. */
  lemma ConsistentAppend(nodes: seq<Node>, n: Node)
    requires OperandsBelow(nodes) && RuleBelow(n.rule, |nodes|)
    requires n.rule.Leaf? || n.data == Forward(nodes, n.rule)
    ensures OperandsBelow(nodes + [n])
    ensures Consistent(nodes) ==> Consistent(nodes + [n])
  {
    var ext := nodes + [n];
    forall w | 0 <= w < |nodes| && !nodes[w].rule.Leaf?
      ensures Forward(ext, nodes[w].rule) == Forward(nodes, nodes[w].rule)
    {
      assert RuleBelow(nodes[w].rule, w);
    }
    if !n.rule.Leaf? {
      assert Forward(ext, n.rule) == Forward(nodes, n.rule);
    }
  }

  /**
   * The product `c * x`.  Every product of a local slope with a gradient or a
   * derivative goes through this one function, so that products built from
   * equal factors are recognised as equal terms.
   */
  function Scale(c: real, x: real): real
  {
    c * x
  }

  /** The local derivative of `x ** k` with respect to `x`: `k * x ** (k - 1)`. */
  function PowSlope(x: real, k: nat): real
  {
    if k == 0 then 0.0 else (k as real) * Power(x, k - 1)
  }

  /** The local derivative of `relu` at `x`, as the boolean `x > 0` read as a number. */
  function ReluSlope(x: real): real
  {
    if x > 0.0 then 1.0 else 0.0
  }

  /** Adds `delta` to the gradient accumulator of node `c`. */
  function Bump(g: seq<real>, c: nat, delta: real): (r: seq<real>)
    requires c < |g|
    ensures |r| == |g|
  {
    g[c := g[c] + delta]
  }

  /**
   * The `_backward` closure of node `w`: it adds the node's current gradient,
   * scaled by the local derivative, into its operands' accumulators.
   */
  function Propagate(nodes: seq<Node>, g: seq<real>, w: nat): (r: seq<real>)
    requires OperandsBelow(nodes) && w < |nodes| == |g|
    ensures |r| == |g|
    ensures forall u :: 0 <= u < |g| && u !in Children(nodes[w].rule) ==> r[u] == g[u]
    ensures r[w] == g[w]
  {
    ChildrenBelow(nodes[w].rule, w);
    var up := g[w];
    match nodes[w].rule
    case Leaf => g
    case Add(i, j) => Bump(Bump(g, i, up), j, up)
    case Mul(i, j) => Bump(Bump(g, i, Scale(nodes[j].data, up)), j, Scale(nodes[i].data, up))
    case Pow(i, k) => Bump(g, i, Scale(PowSlope(nodes[i].data, k), up))
    case Relu(i) => Bump(g, i, Scale(ReluSlope(nodes[i].data), up))
  }

  /**
   * `a + a`: the node has the single child `a`, yet its rule adds the
   * upstream gradient to `a` twice, because the rule keeps both operands.
   */
  lemma AddSelf(nodes: seq<Node>, g: seq<real>, w: nat, i: nat)
    requires OperandsBelow(nodes) && w < |nodes| == |g| && nodes[w].rule == Add(i, i)
    ensures Children(nodes[w].rule) == {i}
    ensures Propagate(nodes, g, w)[i] == g[i] + 2.0 * g[w]
    ensures forall u :: 0 <= u < |g| && u != i ==> Propagate(nodes, g, w)[u] == g[u]
  {
  }

  /** `a * a`: the rule adds `2 * a.data * g` to `a`, the derivative of the square. */
  lemma MulSelf(nodes: seq<Node>, g: seq<real>, w: nat, i: nat)
    requires OperandsBelow(nodes) && w < |nodes| == |g| && nodes[w].rule == Mul(i, i)
    ensures Children(nodes[w].rule) == {i}
    ensures Propagate(nodes, g, w)[i] == g[i] + 2.0 * nodes[i].data * g[w]
    ensures forall u :: 0 <= u < |g| && u != i ==> Propagate(nodes, g, w)[u] == g[u]
  {
    var x, up := nodes[i].data, g[w];
    assert Scale(x, up) + Scale(x, up) == 2.0 * x * up;
  }

  /** `a + b` with distinct operands: each operand gains the upstream gradient. */
  lemma AddRule(nodes: seq<Node>, g: seq<real>, w: nat, i: nat, j: nat)
    requires OperandsBelow(nodes) && w < |nodes| == |g| && nodes[w].rule == Add(i, j) && i != j
    ensures Propagate(nodes, g, w)[i] == g[i] + g[w]
    ensures Propagate(nodes, g, w)[j] == g[j] + g[w]
    ensures forall u :: 0 <= u < |g| && u != i && u != j ==> Propagate(nodes, g, w)[u] == g[u]
  {
  }

  /** `a * b` with distinct operands: each operand gains the other's data times the upstream gradient. */
  lemma MulRule(nodes: seq<Node>, g: seq<real>, w: nat, i: nat, j: nat)
    requires OperandsBelow(nodes) && w < |nodes| == |g| && nodes[w].rule == Mul(i, j) && i != j
    ensures Propagate(nodes, g, w)[i] == g[i] + nodes[j].data * g[w]
    ensures Propagate(nodes, g, w)[j] == g[j] + nodes[i].data * g[w]
    ensures forall u :: 0 <= u < |g| && u != i && u != j ==> Propagate(nodes, g, w)[u] == g[u]
  {
  }

  /** `a ** k` with `k >= 1`: the operand gains `k * a.data ** (k - 1)` times the upstream gradient. */
  lemma PowRule(nodes: seq<Node>, g: seq<real>, w: nat, i: nat, k: nat)
    requires OperandsBelow(nodes) && w < |nodes| == |g| && nodes[w].rule == Pow(i, k) && k >= 1
    ensures Forward(nodes, nodes[w].rule) == Power(nodes[i].data, k)
    ensures Propagate(nodes, g, w)[i] == g[i] + (k as real) * Power(nodes[i].data, k - 1) * g[w]
    ensures forall u :: 0 <= u < |g| && u != i ==> Propagate(nodes, g, w)[u] == g[u]
  {
  }

  /** A leaf has no children, an empty op, and a rule that changes nothing. */
  lemma LeafInert(nodes: seq<Node>, g: seq<real>, w: nat)
    requires OperandsBelow(nodes) && w < |nodes| == |g| && nodes[w].rule.Leaf?
    ensures Children(nodes[w].rule) == {} && Op(nodes[w].rule) == ""
    ensures Propagate(nodes, g, w) == g
  {
  }

  /**
   * `relu` clamps negative data to 0, and its rule passes the gradient only
   * for strictly positive input: at exactly 0 it contributes nothing.
   */
  lemma ReluRule(nodes: seq<Node>, g: seq<real>, w: nat, i: nat)
    requires OperandsBelow(nodes) && w < |nodes| == |g| && nodes[w].rule == Relu(i)
    ensures Forward(nodes, nodes[w].rule) == (if nodes[i].data < 0.0 then 0.0 else nodes[i].data)
    ensures Forward(nodes, nodes[w].rule) >= 0.0
    ensures Propagate(nodes, g, w)[i] == (if nodes[i].data > 0.0 then g[i] + g[w] else g[i])
  {
  }

  /**
   * The nodes reachable from `w` by following `_prev`, `w` included.
   */
  ghost function Reach(nodes: seq<Node>, w: nat): (r: set<nat>)
    requires OperandsBelow(nodes) && w < |nodes|
    ensures w in r
    ensures forall u :: u in r ==> u <= w
    decreases w, 1
  {
    ChildrenBelow(nodes[w].rule, w);
    {w} + ReachAll(nodes, Children(nodes[w].rule), w)
  }

  /** The union of `Reach(c)` over a set of children, all below `bound`. */
  ghost function ReachAll(nodes: seq<Node>, cs: set<nat>, bound: nat): (r: set<nat>)
    requires OperandsBelow(nodes) && bound <= |nodes|
    requires forall c :: c in cs ==> c < bound
    ensures forall u :: u in r ==> u < bound
    decreases bound, 0
  {
    set c, u | c in cs && u in Reach(nodes, c) :: u
  }

  /**
   * The reference derivative: d(data of w) / d(data of u), with `u` treated as
   * an independent input, computed forward by the chain rule.
   */
  ghost function Deriv(nodes: seq<Node>, w: nat, u: nat): real
    requires OperandsBelow(nodes) && w < |nodes|
    decreases w
  {
    if w == u then 1.0
    else
      match nodes[w].rule
      case Leaf => 0.0
      case Add(i, j) => Deriv(nodes, i, u) + Deriv(nodes, j, u)
      case Mul(i, j) => Scale(nodes[j].data, Deriv(nodes, i, u)) + Scale(nodes[i].data, Deriv(nodes, j, u))
      case Pow(i, k) => Scale(PowSlope(nodes[i].data, k), Deriv(nodes, i, u))
      case Relu(i) => Scale(ReluSlope(nodes[i].data), Deriv(nodes, i, u))
  }
}
