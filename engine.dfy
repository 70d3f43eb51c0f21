/**
 * The `Value` objects of src/core.py, held by a tape.
 *
 * A `Value` is the index of a node in `nodes`; its `grad` field is the entry
 * of the same index in the array `grad`.  Creating a value appends a node
 * (and a zero gradient); `Backward` updates the gradients in place.
 */
module Engine {
  import opened ValueGraph
  import opened Backprop

  /** The right operand of `+` and `*`: a `Value`, or a plain number. */
  datatype Operand = Ref(index: nat) | Num(value: real)

  /** The exponent of `**`: a plain number, or a `Value`, which is refused. */
  datatype Exponent = Const(k: nat) | ValueExponent(index: nat)

  function Zeros(n: nat): (r: seq<real>)
    ensures |r| == n
  {
    seq(n, _ => 0.0)
  }

  class Tape {
    /** Every value created so far, in creation order. */
    var nodes: seq<Node>
    /** `grad[v]` is the `grad` field of value `v`. */
    var grad: array<real>

    ghost predicate Valid()
      reads this
    {
      OperandsBelow(nodes) && grad.Length == |nodes|
    }

    constructor ()
      ensures Valid() && nodes == [] && fresh(grad)
    {
      nodes := [];
      grad := new real[0];
    }

    /** Adds a node whose `grad` starts at 0.0 (src/core.py:9). */
    method Append(n: Node) returns (v: nat)
      requires Valid() && RuleBelow(n.rule, |nodes|)
      modifies this
      ensures Valid() && fresh(grad)
      ensures v == old(|nodes|) && nodes == old(nodes) + [n]
      ensures grad[..] == old(grad[..]) + [0.0]
    {
      var src := grad;
      var g := new real[src.Length + 1];
      var p := 0;
      while p < src.Length
        invariant 0 <= p <= src.Length
        invariant forall q :: 0 <= q < p ==> g[q] == src[q]
        modifies g
      {
        g[p] := src[p];
        p := p + 1;
      }
      g[src.Length] := 0.0;
      assert g[..] == src[..] + [0.0];
      v := |nodes|;
      nodes := nodes + [n];
      grad := g;
    }

    /** `Value(data)`: a leaf with no children, an empty `_op` and a rule that does nothing. */
    method NewValue(x: real) returns (v: nat)
      requires Valid()
      modifies this
      ensures Valid() && fresh(grad)
      ensures v == old(|nodes|) && nodes == old(nodes) + [Node(x, Leaf)]
      ensures grad[..] == old(grad[..]) + [0.0]
      ensures Consistent(old(nodes)) ==> Consistent(nodes)
    {
      ConsistentAppend(nodes, Node(x, Leaf));
      v := Append(Node(x, Leaf));
    }

    /** A right operand that is not a `Value` becomes a fresh leaf. */
    method Promote(other: Operand) returns (j: nat)
      requires Valid() && (other.Ref? ==> other.index < |nodes|)
      modifies this
      ensures Valid() && j < |nodes|
      ensures other.Ref? ==> j == other.index && nodes == old(nodes) && grad == old(grad)
      ensures other.Num? ==> j == old(|nodes|) && nodes == old(nodes) + [Node(other.value, Leaf)] && fresh(grad)
      ensures grad[..] == old(grad[..]) + Zeros(|nodes| - old(|nodes|))
      ensures Consistent(old(nodes)) ==> Consistent(nodes)
    {
      if other.Ref? {
        j := other.index;
        assert grad[..] == old(grad[..]) + [];
      } else {
        j := NewValue(other.value);
      }
    }

    /**
     * Appends a derived node holding the forward value of rule `r` over the
     * current data, with a zero `grad`: the common part of every operator.
     */
    method Derive(r: Rule) returns (out: nat)
      requires Valid() && !r.Leaf? && RuleBelow(r, |nodes|)
      modifies this
      ensures Valid() && fresh(grad)
      ensures out == old(|nodes|) && nodes == old(nodes) + [Node(Forward(old(nodes), r), r)]
      ensures grad[..] == old(grad[..]) + [0.0]
      ensures Consistent(old(nodes)) ==> Consistent(nodes)
    {
      ConsistentAppend(nodes, Node(Forward(nodes, r), r));
      out := Append(Node(Forward(nodes, r), r));
    }

    /**
     * `a + other`: a node whose data is `a.data + other.data`, with children
     * `{a, other}` and op "+".  A plain number is first promoted to a leaf.
     */
    method Plus(a: nat, other: Operand) returns (out: nat)
      requires Valid() && a < |nodes| && (other.Ref? ==> other.index < |nodes|)
      modifies this
      ensures Valid() && fresh(grad)
      ensures var mid := if other.Ref? then old(nodes) else old(nodes) + [Node(other.value, Leaf)];
        var j := if other.Ref? then other.index else old(|nodes|);
        out == |mid| && nodes == mid + [Node(Forward(mid, Add(a, j)), Add(a, j))]
      ensures grad[..] == old(grad[..]) + Zeros(|nodes| - old(|nodes|))
      ensures Consistent(old(nodes)) ==> Consistent(nodes)
    {
      var j := Promote(other);
      ghost var g := grad[..];
      out := Derive(Add(a, j));
      assert Zeros(|nodes| - old(|nodes|)) == Zeros(|g| - old(|nodes|)) + [0.0];
    }

    /**
     * `a * other`: a node whose data is `a.data * other.data`, with children
     * `{a, other}` and op "*".  A plain number is first promoted to a leaf.
     */
    method Times(a: nat, other: Operand) returns (out: nat)
      requires Valid() && a < |nodes| && (other.Ref? ==> other.index < |nodes|)
      modifies this
      ensures Valid() && fresh(grad)
      ensures var mid := if other.Ref? then old(nodes) else old(nodes) + [Node(other.value, Leaf)];
        var j := if other.Ref? then other.index else old(|nodes|);
        out == |mid| && nodes == mid + [Node(Forward(mid, Mul(a, j)), Mul(a, j))]
      ensures grad[..] == old(grad[..]) + Zeros(|nodes| - old(|nodes|))
      ensures Consistent(old(nodes)) ==> Consistent(nodes)
    {
      var j := Promote(other);
      ghost var g := grad[..];
      out := Derive(Mul(a, j));
      assert Zeros(|nodes| - old(|nodes|)) == Zeros(|g| - old(|nodes|)) + [0.0];
    }

    /**
     * `a ** other`: a `Value` exponent fails before any node is created; a
     * number `k` gives a node whose data is `a.data ** k`, with the single
     * child `a` and op "**".
     */
    method Raise(a: nat, other: Exponent) returns (r: Result<nat>)
      requires Valid() && a < |nodes|
      modifies this
      ensures Valid()
      ensures other.ValueExponent? ==> r == Err(ExponentNotNumber) && nodes == old(nodes) && grad == old(grad)
      ensures other.Const? ==>
        r == Ok(old(|nodes|)) &&
        nodes == old(nodes) + [Node(Forward(old(nodes), Pow(a, other.k)), Pow(a, other.k))] &&
        grad[..] == old(grad[..]) + [0.0] && fresh(grad)
      ensures Consistent(old(nodes)) ==> Consistent(nodes)
    {
      if other.ValueExponent? {
        return Err(ExponentNotNumber);
      }
      var out := Derive(Pow(a, other.k));
      r := Ok(out);
    }

    /** `a.relu()`: a node whose data is `a.data` clamped below at 0, with the single child `a` and op "relu". */
    method ApplyRelu(a: nat) returns (out: nat)
      requires Valid() && a < |nodes|
      modifies this
      ensures Valid() && fresh(grad)
      ensures out == old(|nodes|) && nodes == old(nodes) + [Node(Forward(old(nodes), Relu(a)), Relu(a))]
      ensures grad[..] == old(grad[..]) + [0.0]
      ensures Consistent(old(nodes)) ==> Consistent(nodes)
    {
      out := Derive(Relu(a));
    }

    /** Runs the `_backward` closure of node `w`, updating its operands' `grad` in place. */
    method RunRule(w: nat)
      requires Valid() && w < |nodes|
      modifies grad
      ensures grad[..] == Propagate(nodes, old(grad[..]), w)
    {
      ChildrenBelow(nodes[w].rule, w);
      match nodes[w].rule
      case Leaf =>
      case Add(i, j) =>
        grad[i] := grad[i] + grad[w];
        grad[j] := grad[j] + grad[w];
      case Mul(i, j) =>
        grad[i] := grad[i] + Scale(nodes[j].data, grad[w]);
        grad[j] := grad[j] + Scale(nodes[i].data, grad[w]);
      case Pow(i, k) =>
        grad[i] := grad[i] + Scale(PowSlope(nodes[i].data, k), grad[w]);
      case Relu(i) =>
        grad[i] := grad[i] + Scale(ReluSlope(nodes[i].data), grad[w]);
    }

    /** Runs the rules of the nodes of `topo`, last listed first (src/core.py:71-72). */
    method RunSweep(topo: seq<nat>)
      requires Valid() && forall p :: 0 <= p < |topo| ==> topo[p] < |nodes|
      modifies grad
      ensures grad[..] == Sweep(nodes, old(grad[..]), topo)
    {
      ghost var g0 := grad[..];
      var k := |topo|;
      assert topo[..k] == topo;
      while k > 0
        invariant 0 <= k <= |topo| && grad.Length == |nodes|
        invariant Sweep(nodes, grad[..], topo[..k]) == Sweep(nodes, g0, topo)
        decreases k
      {
        SweepDown(nodes, grad[..], topo, k);
        RunRule(topo[k - 1]);
        k := k - 1;
      }
    }

    /**
     * `out.backward()`: builds the topological list, seeds `grad[out]`
     * with 1.0 and runs every listed rule once, last listed first.
     */
    method Backward(out: nat)
      requires Valid() && out < |nodes|
      modifies grad
      ensures exists topo :: IsTopoOrder(nodes, out, topo) && grad[..] == Sweep(nodes, old(grad[..])[out := 1.0], topo)
      ensures grad[out] == 1.0
      ensures forall u :: 0 <= u < |nodes| && u !in Reach(nodes, out) ==> grad[u] == old(grad[u])
      ensures ResetDone(nodes, out, old(grad[..])) ==>
        forall u :: 0 <= u < |nodes| && u != out ==> grad[u] == old(grad[u]) + Deriv(nodes, out, u)
    {
      var topo := BuildTopo(nodes, out);
      grad[out] := 1.0;
      RunSweep(topo);
      BackwardFacts(nodes, out, topo, old(grad[..]));
    }

    /**
     * Overwrites `v.data`, as the training step `a.data -= lr * a.grad` does.
     * Nodes computed from `v` keep their old data until they are rebuilt.
     */
    method SetData(v: nat, x: real)
      requires Valid() && v < |nodes|
      modifies this
      ensures Valid() && grad == old(grad)
      ensures nodes == old(nodes)[v := Node(x, old(nodes)[v].rule)]
    {
      nodes := nodes[v := Node(x, nodes[v].rule)];
    }

    /** Overwrites `v.grad`, as zeroing a parameter before the next pass does. */
    method SetGrad(v: nat, x: real)
      requires Valid() && v < |nodes|
      modifies grad
      ensures grad[..] == old(grad[..])[v := x]
    {
      grad[v] := x;
    }
  }

  /** What the sweep of `Backward` leaves behind, stated on values. */
  lemma BackwardFacts(nodes: seq<Node>, out: nat, topo: seq<nat>, g0: seq<real>)
    requires OperandsBelow(nodes) && out < |nodes| == |g0| && IsTopoOrder(nodes, out, topo)
    ensures Sweep(nodes, g0[out := 1.0], topo)[out] == 1.0
    ensures forall u :: 0 <= u < |nodes| && u !in Reach(nodes, out) ==> Sweep(nodes, g0[out := 1.0], topo)[u] == g0[u]
    ensures ResetDone(nodes, out, g0) ==>
      forall u :: 0 <= u < |nodes| && u != out ==> Sweep(nodes, g0[out := 1.0], topo)[u] == g0[u] + Deriv(nodes, out, u)
  {
    SweepFrame(nodes, out, topo, g0[out := 1.0]);
    if ResetDone(nodes, out, g0) {
      SweepIsGradient(nodes, out, topo, g0);
    }
  }
}
