/**
 * Small end-to-end runs of the engine: build values on a fresh tape, call
 * `Backward`, and state the resulting data and gradients exactly.
 */
module Scenarios {
  import opened ValueGraph
  import opened Backprop
  import opened Engine

  /** Every gradient on the tape is zero: true right after construction. */
  lemma AllZeroReset(nodes: seq<Node>, out: nat, g: seq<real>)
    requires OperandsBelow(nodes) && out < |nodes| == |g|
    requires forall p :: 0 <= p < |g| ==> g[p] == 0.0
    ensures ResetDone(nodes, out, g)
  {
  }

  /** The tape `n` extended with `a * b` and then `(a * b) + c`. */
  function MulAddTape(n: seq<Node>, a: nat, b: nat, c: nat): (r: seq<Node>)
    requires OperandsBelow(n) && a < |n| && b < |n| && c < |n|
    ensures OperandsBelow(r) && |r| == |n| + 2
  {
    var n1 := n + [Node(Forward(n, Mul(a, b)), Mul(a, b))];
    assert OperandsBelow(n1) by { ConsistentAppend(n, n1[|n|]); }
    ConsistentAppend(n1, Node(Forward(n1, Add(|n|, c)), Add(|n|, c)));
    n1 + [Node(Forward(n1, Add(|n|, c)), Add(|n|, c))]
  }

  /** Evaluates `a * b + c` on the tape `t`. */
  method MulAdd(t: Tape, a: nat, b: nat, c: nat) returns (l: nat)
    requires t.Valid() && a < |t.nodes| && b < |t.nodes| && c < |t.nodes|
    modifies t
    ensures t.Valid() && fresh(t.grad)
    ensures l == old(|t.nodes|) + 1 && t.nodes == MulAddTape(old(t.nodes), a, b, c)
    ensures t.grad[..] == old(t.grad[..]) + [0.0, 0.0]
  {
    var ab := t.Times(a, Ref(b));
    l := t.Plus(ab, Ref(c));
  }

  /** The three leaves of `train_neuron`, before `a * b + c` is built. */
  function Leaves(x: real, y: real, z: real): seq<Node>
  {
    [Node(x, Leaf), Node(y, Leaf), Node(z, Leaf)]
  }

  /** On `L = a * b + c`: `L.data == a * b + c`, and the chain rule gives `b`, `a` and 1. */
  lemma MulAddFacts(x: real, y: real, z: real)
    ensures var n := MulAddTape(Leaves(x, y, z), 0, 1, 2);
      n[4].data == x * y + z &&
      Deriv(n, 4, 0) == y && Deriv(n, 4, 1) == x && Deriv(n, 4, 2) == 1.0
  {
    var n := MulAddTape(Leaves(x, y, z), 0, 1, 2);
    assert n[3] == Node(x * y, Mul(0, 1));
    assert Deriv(n, 3, 0) == Scale(y, 1.0) + Scale(x, 0.0);
    assert Deriv(n, 3, 1) == Scale(y, 0.0) + Scale(x, 1.0);
    assert Deriv(n, 3, 2) == Scale(y, 0.0) + Scale(x, 0.0);
  }

  /**
   * `L = a * b + c` on fresh leaves and one backward pass:
   * `L.data == a * b + c`, `a.grad == b`, `b.grad == a` and `c.grad == 1`.
   */
  method MulAddBackward(x: real, y: real, z: real) returns (t: Tape, l: nat)
    ensures fresh(t) && fresh(t.grad) && t.Valid() && l == 4
    ensures t.nodes == MulAddTape(Leaves(x, y, z), 0, 1, 2)
    ensures t.nodes[l].data == x * y + z
    ensures t.grad[..] == [y, x, 1.0, 1.0, 1.0]
  {
    t := new Tape();
    var a := t.NewValue(x);
    var b := t.NewValue(y);
    var c := t.NewValue(z);
    assert t.nodes == Leaves(x, y, z);
    l := MulAdd(t, a, b, c);
    assert t.grad[..] == Zeros(5);
    AllZeroReset(t.nodes, l, t.grad[..]);
    t.Backward(l);
    MulAddGrads(x, y, z, t.grad[..]);
  }

  /** The gradients a backward pass from `L = a * b + c` leaves on fresh leaves. */
  lemma MulAddGrads(x: real, y: real, z: real, g: seq<real>)
    requires |g| == 5 && g[4] == 1.0
    requires forall u :: 0 <= u < 5 && u != 4 ==> g[u] == 0.0 + Deriv(MulAddTape(Leaves(x, y, z), 0, 1, 2), 4, u)
    ensures MulAddTape(Leaves(x, y, z), 0, 1, 2)[4].data == x * y + z
    ensures g == [y, x, 1.0, 1.0, 1.0]
  {
    MulAddFacts(x, y, z);
    assert Deriv(MulAddTape(Leaves(x, y, z), 0, 1, 2), 4, 3) == 1.0;
  }

  /**
   * `train_neuron`: a = 2, b = 3, c = 10, L = a * b + c, one backward pass,
   * then one gradient step with learning rate 0.01 on a and b, and L rebuilt.
   */
  method TrainNeuron() returns (l0: real, ga: real, gb: real, gc: real, l1: real)
    ensures l0 == 16.0 && ga == 3.0 && gb == 2.0 && gc == 1.0
    ensures l1 == 15.8706 && l1 < l0
  {
    var t, l := MulAddBackward(2.0, 3.0, 10.0);
    var a, b, c := 0, 1, 2;
    l0, ga, gb, gc := t.nodes[l].data, t.grad[a], t.grad[b], t.grad[c];
    t.SetData(a, t.nodes[a].data - 0.01 * t.grad[a]);
    t.SetData(b, t.nodes[b].data - 0.01 * t.grad[b]);
    ghost var stepped := t.nodes;
    assert stepped[..3] == Leaves(1.97, 2.98, 10.0);
    var l' := MulAdd(t, a, b, c);
    SteppedLoss(stepped);
    l1 := t.nodes[l'].data;
  }

  /** The rebuilt loss only reads the three updated leaves. */
  lemma SteppedLoss(n: seq<Node>)
    requires OperandsBelow(n) && |n| >= 3 && n[..3] == Leaves(1.97, 2.98, 10.0)
    ensures MulAddTape(n, 0, 1, 2)[|n| + 1].data == 15.8706
  {
    assert n[0].data == 1.97 && n[1].data == 2.98 && n[2].data == 10.0;
  }

  /** A leaf holding `x` and one node computed from it by rule `r`. */
  function Unary(x: real, r: Rule): (n: seq<Node>)
    requires !r.Leaf? && RuleBelow(r, 1)
    ensures OperandsBelow(n) && |n| == 2
  {
    var leaf := [Node(x, Leaf)];
    ConsistentAppend(leaf, Node(Forward(leaf, r), r));
    leaf + [Node(Forward(leaf, r), r)]
  }

  lemma SquareFacts(x: real)
    ensures Unary(x, Mul(0, 0))[1].data == x * x && Deriv(Unary(x, Mul(0, 0)), 1, 0) == 2.0 * x
  {
    var n := Unary(x, Mul(0, 0));
    assert Deriv(n, 1, 0) == Scale(x, 1.0) + Scale(x, 1.0);
  }

  lemma DoubleFacts(x: real)
    ensures Unary(x, Add(0, 0))[1].data == 2.0 * x && Deriv(Unary(x, Add(0, 0)), 1, 0) == 2.0
  {
  }

  lemma CubeFacts()
    ensures Unary(2.0, Pow(0, 3))[1].data == 8.0 && Deriv(Unary(2.0, Pow(0, 3)), 1, 0) == 12.0
  {
    var n := Unary(2.0, Pow(0, 3));
    assert Deriv(n, 1, 0) == Scale(PowSlope(2.0, 3), 1.0);
  }

  lemma ReluZeroFacts()
    ensures Unary(0.0, Relu(0))[1].data == 0.0 && Deriv(Unary(0.0, Relu(0)), 1, 0) == 0.0
  {
  }

  /** `a * a` with one backward pass: `a.grad == 2 * a.data`. */
  method Square(x: real) returns (y: real, gx: real)
    ensures y == x * x && gx == 2.0 * x
  {
    var t := new Tape();
    var a := t.NewValue(x);
    assert t.nodes == [Node(x, Leaf)];
    var s := t.Times(a, Ref(a));
    assert t.nodes == Unary(x, Mul(0, 0));
    AllZeroReset(t.nodes, s, t.grad[..]);
    t.Backward(s);
    SquareFacts(x);
    y, gx := t.nodes[s].data, t.grad[a];
  }

  /** `a + a` with one backward pass: `a.grad == 2`, though `a` is its only child. */
  method Double(x: real) returns (y: real, gx: real)
    ensures y == 2.0 * x && gx == 2.0
  {
    var t := new Tape();
    var a := t.NewValue(x);
    assert t.nodes == [Node(x, Leaf)];
    var s := t.Plus(a, Ref(a));
    assert t.nodes == Unary(x, Add(0, 0));
    AllZeroReset(t.nodes, s, t.grad[..]);
    t.Backward(s);
    DoubleFacts(x);
    y, gx := t.nodes[s].data, t.grad[a];
  }

  /** `a ** 3` at a = 2: data 8 and `a.grad == 3 * 2 ** 2 == 12`. */
  method CubeAtTwo() returns (y: real, gx: real)
    ensures y == 8.0 && gx == 12.0
  {
    var t := new Tape();
    var a := t.NewValue(2.0);
    assert t.nodes == [Node(2.0, Leaf)];
    var r := t.Raise(a, Const(3));
    var s := r.value;
    assert t.nodes == Unary(2.0, Pow(0, 3));
    AllZeroReset(t.nodes, s, t.grad[..]);
    t.Backward(s);
    CubeFacts();
    y, gx := t.nodes[s].data, t.grad[a];
  }

  /** `a ** b` with `b` a `Value` is refused and creates nothing. */
  method ValueExponentRefused(x: real, e: real) returns (r: Result<nat>, size: nat)
    ensures r == Err(ExponentNotNumber) && size == 2
  {
    var t := new Tape();
    var a := t.NewValue(x);
    var b := t.NewValue(e);
    r := t.Raise(a, ValueExponent(b));
    size := |t.nodes|;
  }

  /** `relu` at exactly 0: data 0 and nothing flows back. */
  method ReluAtZero() returns (y: real, gx: real)
    ensures y == 0.0 && gx == 0.0
  {
    var t := new Tape();
    var a := t.NewValue(0.0);
    assert t.nodes == [Node(0.0, Leaf)];
    var s := t.ApplyRelu(a);
    assert t.nodes == Unary(0.0, Relu(0));
    AllZeroReset(t.nodes, s, t.grad[..]);
    t.Backward(s);
    ReluZeroFacts();
    y, gx := t.nodes[s].data, t.grad[a];
  }

  /** The tape of `Accumulate` after `L1 = a * b`. */
  function ProductTape(x: real, z: real): (r: seq<Node>)
    ensures OperandsBelow(r) && |r| == 4
  {
    var leaves := Leaves(x, z, 5.0);
    leaves + [Node(Forward(leaves, Mul(0, 1)), Mul(0, 1))]
  }

  /** After the first pass, from `L1 = a * b`: `a.grad == b`, `b.grad == a`, `c.grad == 0`. */
  lemma ProductGrads(x: real, z: real, g: seq<real>)
    requires |g| == 4 && g[3] == 1.0
    requires forall u :: 0 <= u < 4 && u != 3 ==> g[u] == 0.0 + Deriv(ProductTape(x, z), 3, u)
    ensures g == [z, x, 0.0, 1.0]
  {
    var n := ProductTape(x, z);
    assert Deriv(n, 3, 0) == Scale(z, 1.0) + Scale(x, 0.0);
    assert Deriv(n, 3, 1) == Scale(z, 0.0) + Scale(x, 1.0);
    assert Deriv(n, 3, 2) == Scale(z, 0.0) + Scale(x, 0.0);
  }

  /**
   * `L2 = a + c` does not reach `L1`, so the gradient `L1` kept from the
   * first pass does not disturb the second.
   */
  lemma SumAfterProduct(x: real, z: real, g: seq<real>)
    requires |g| == 5
    ensures var m := ProductTape(x, z) + [Node(x + 5.0, Add(0, 2))];
      OperandsBelow(m) && ResetDone(m, 4, g) && Deriv(m, 4, 0) == 1.0
  {
    var n := ProductTape(x, z);
    var m := n + [Node(x + 5.0, Add(0, 2))];
    assert OperandsBelow(m) by { ConsistentAppend(n, m[4]); }
    assert Reach(m, 0) == {0} by { assert Children(m[0].rule) == {}; }
    assert Reach(m, 2) == {2} by { assert Children(m[2].rule) == {}; }
    ReachOfPair(m, 4, 0, 2);
  }

  /** A node with the two children `i` and `j` reaches itself and what they reach. */
  lemma ReachOfPair(nodes: seq<Node>, w: nat, i: nat, j: nat)
    requires OperandsBelow(nodes) && w < |nodes| && Children(nodes[w].rule) == {i, j}
    ensures Reach(nodes, w) == {w} + Reach(nodes, i) + Reach(nodes, j)
  {
    ReachUnfold(nodes, w);
    var all := ReachAll(nodes, {i, j}, w);
    forall u | u in all
      ensures u in Reach(nodes, i) + Reach(nodes, j)
    {
      var c :| c in {i, j} && u in Reach(nodes, c);
    }
    assert forall u :: u in Reach(nodes, i) ==> u in all;
    assert forall u :: u in Reach(nodes, j) ==> u in all;
  }

  /** `L1 = a * b` on fresh leaves `a`, `b`, `c` and one backward pass from `L1`. */
  method ProductBackward(x: real, z: real) returns (t: Tape)
    ensures fresh(t) && fresh(t.grad) && t.Valid()
    ensures t.nodes == ProductTape(x, z) && t.grad[..] == [z, x, 0.0, 1.0]
  {
    t := new Tape();
    var a := t.NewValue(x);
    var b := t.NewValue(z);
    var c := t.NewValue(5.0);
    assert t.nodes == Leaves(x, z, 5.0);
    var l1 := t.Times(a, Ref(b));
    assert t.nodes == ProductTape(x, z);
    AllZeroReset(t.nodes, l1, t.grad[..]);
    t.Backward(l1);
    ProductGrads(x, z, t.grad[..]);
  }

  /**
   * Two passes over two outputs sharing `a`, with no reset in between:
   * the second pass, from `L2 = a + c`, adds to what the first left,
   * so `a.grad == b + 1`.
   */
  method Accumulate(x: real, z: real) returns (ga: real)
    ensures ga == z + 1.0
  {
    var t := ProductBackward(x, z);
    var l2 := t.Plus(0, Ref(2));
    SumAfterProduct(x, z, t.grad[..]);
    assert Forward(ProductTape(x, z), Add(0, 2)) == x + 5.0;
    assert t.nodes == ProductTape(x, z) + [Node(x + 5.0, Add(0, 2))];
    t.Backward(l2);
    ga := t.grad[0];
  }
}
