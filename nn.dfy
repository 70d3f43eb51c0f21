/**
 * The neural-network layer of src/nn.py, built on the tape of the engine.
 *
 * A `Neuron` holds the handles (tape indices) of its weight values and its
 * bias value; a `Layer` is a list of neurons and an `Mlp` a list of layers.
 * The random initial weights are supplied as a list of draws.
 */
module Nn {
  import opened ValueGraph
  import opened Engine

  datatype Neuron = Neuron(w: seq<nat>, b: nat, nonlin: bool)
  datatype Layer = Layer(neurons: seq<Neuron>)
  datatype Mlp = Mlp(layers: seq<Layer>)

  /** The argument of a call: one value (a `Value` or a number) or a list of them. */
  datatype Signal = Scalar(v: Operand) | Vector(vs: seq<Operand>)

  /** The data carried by a signal. */
  datatype Val = One(r: real) | Many(rs: seq<real>)

  /** The handles `lo, lo + 1, ..., hi - 1`. */
  function Range(lo: nat, hi: nat): (r: seq<nat>)
    requires lo <= hi
    ensures |r| == hi - lo
  {
    seq(hi - lo, p => lo + p)
  }

  // ---------------------------------------------------------------------
  // Parameters

  /** `Neuron.parameters()`: the weights followed by the bias. */
  function NeuronParams(n: Neuron): seq<nat>
  {
    n.w + [n.b]
  }

  /** `Layer.parameters()`: the neurons' parameters, in neuron order. */
  function LayerParams(ns: seq<Neuron>): seq<nat>
  {
    if ns == [] then [] else LayerParams(ns[..|ns| - 1]) + NeuronParams(ns[|ns| - 1])
  }

  /** `MLP.parameters()`: the layers' parameters, in layer order. */
  function MlpParams(ls: seq<Layer>): seq<nat>
  {
    if ls == [] then [] else MlpParams(ls[..|ls| - 1]) + LayerParams(ls[|ls| - 1].neurons)
  }

  /** A neuron with `nin` weights and the given non-linearity switch. */
  predicate NeuronShape(n: Neuron, nin: nat, nonlin: bool)
  {
    |n.w| == nin && n.nonlin == nonlin
  }

  /** `Layer(nin, nout, nonlin)`: `nout` neurons, each of shape `(nin, nonlin)`. */
  predicate LayerShape(l: Layer, nin: nat, nout: nat, nonlin: bool)
  {
    |l.neurons| == nout && forall k :: 0 <= k < nout ==> NeuronShape(l.neurons[k], nin, nonlin)
  }

  /** `[nin] + nouts`: the sizes between consecutive layers. */
  function Sizes(nin: nat, nouts: seq<nat>): seq<nat>
  {
    [nin] + nouts
  }

  /**
   * `MLP(nin, nouts)`: layer `i` maps `sz[i]` inputs to `sz[i + 1]` outputs,
   * and only the last layer is linear.
   */
  predicate MlpShape(m: Mlp, nin: nat, nouts: seq<nat>)
  {
    |m.layers| == |nouts| &&
    forall i :: 0 <= i < |nouts| ==>
      LayerShape(m.layers[i], Sizes(nin, nouts)[i], nouts[i], i != |nouts| - 1)
  }

  /** The number of parameters of the first `k` layers of `MLP(nin, nouts)`. */
  function ParamCount(nin: nat, nouts: seq<nat>, k: nat): nat
    requires k <= |nouts|
  {
    if k == 0 then 0
    else ParamCount(nin, nouts, k - 1) + nouts[k - 1] * (Sizes(nin, nouts)[k - 1] + 1)
  }

  lemma {:induction false} NeuronParamCount(n: Neuron, nin: nat, nonlin: bool)
    requires NeuronShape(n, nin, nonlin)
    ensures |NeuronParams(n)| == nin + 1
    ensures NeuronParams(n)[..nin] == n.w && NeuronParams(n)[nin] == n.b
  {
  }

  lemma {:induction false} LayerParamCount(ns: seq<Neuron>, nin: nat, nonlin: bool)
    requires forall k :: 0 <= k < |ns| ==> NeuronShape(ns[k], nin, nonlin)
    ensures |LayerParams(ns)| == |ns| * (nin + 1)
  {
    if ns != [] {
      LayerParamCount(ns[..|ns| - 1], nin, nonlin);
      MulSucc(|ns| - 1, nin + 1);
    }
  }

  lemma {:induction false} MlpParamCount(m: Mlp, nin: nat, nouts: seq<nat>, k: nat)
    requires MlpShape(m, nin, nouts) && k <= |nouts|
    ensures |MlpParams(m.layers[..k])| == ParamCount(nin, nouts, k)
  {
    if k > 0 {
      assert m.layers[..k][..k - 1] == m.layers[..k - 1];
      MlpParamCount(m, nin, nouts, k - 1);
      LayerParamCount(m.layers[k - 1].neurons, Sizes(nin, nouts)[k - 1], k - 1 != |nouts| - 1);
    }
  }

  /** The demo network `MLP(3, [4, 4, 1])` has 41 parameters. */
  lemma DemoParamCount(m: Mlp)
    requires MlpShape(m, 3, [4, 4, 1])
    ensures |MlpParams(m.layers)| == 41
  {
    MlpParamCount(m, 3, [4, 4, 1], 3);
    assert m.layers[..3] == m.layers;
  }

  /** `Layer.parameters()`: extends the list with each neuron's parameters in turn. */
  method LayerParameters(l: Layer) returns (params: seq<nat>)
    ensures params == LayerParams(l.neurons)
  {
    params := [];
    var k := 0;
    while k < |l.neurons|
      invariant 0 <= k <= |l.neurons|
      invariant params == LayerParams(l.neurons[..k])
    {
      assert l.neurons[..k + 1][..k] == l.neurons[..k];
      params := params + NeuronParams(l.neurons[k]);
      k := k + 1;
    }
    assert l.neurons[..k] == l.neurons;
  }

  /** `MLP.parameters()`: extends the list with each layer's parameters in turn. */
  method MlpParameters(m: Mlp) returns (params: seq<nat>)
    ensures params == MlpParams(m.layers)
  {
    params := [];
    var i := 0;
    while i < |m.layers|
      invariant 0 <= i <= |m.layers|
      invariant params == MlpParams(m.layers[..i])
    {
      assert m.layers[..i + 1][..i] == m.layers[..i];
      var more := LayerParameters(m.layers[i]);
      params := params + more;
      i := i + 1;
    }
    assert m.layers[..i] == m.layers;
  }

  // ---------------------------------------------------------------------
  // Construction

  /** The leaves created from a list of draws, in order. */
  function LeafNodes(draws: seq<real>): (r: seq<Node>)
    ensures |r| == |draws|
  {
    seq(|draws|, p requires 0 <= p < |draws| => Node(draws[p], Leaf))
  }

  /**
   * The tape `(nodes, grad)` is `(nodes0, grad0)` with one fresh leaf per
   * draw appended, each with a zero `grad`.
   */
  ghost predicate Appended(nodes0: seq<Node>, grad0: seq<real>, draws: seq<real>, nodes: seq<Node>, grad: seq<real>)
  {
    nodes == nodes0 + LeafNodes(draws) && grad == grad0 + Zeros(|draws|)
  }

  lemma AppendedNone(nodes: seq<Node>, grad: seq<real>, draws: seq<real>)
    requires |draws| == 0
    ensures Appended(nodes, grad, draws, nodes, grad)
  {
    assert LeafNodes(draws) == [] && Zeros(0) == [];
  }

  lemma AppendedStep(nodes0: seq<Node>, grad0: seq<real>, d1: seq<real>, d2: seq<real>,
                     nodes1: seq<Node>, grad1: seq<real>, nodes2: seq<Node>, grad2: seq<real>)
    requires Appended(nodes0, grad0, d1, nodes1, grad1)
    requires Appended(nodes1, grad1, d2, nodes2, grad2)
    ensures Appended(nodes0, grad0, d1 + d2, nodes2, grad2)
  {
    assert LeafNodes(d1) + LeafNodes(d2) == LeafNodes(d1 + d2);
    assert Zeros(|d1|) + Zeros(|d2|) == Zeros(|d1 + d2|);
  }

  lemma RangeSplit(lo: nat, mid: nat, hi: nat)
    requires lo <= mid <= hi
    ensures Range(lo, mid) + Range(mid, hi) == Range(lo, hi)
  {
  }

  /**
   * `Neuron(nin, nonlin)`: `nin` weight values, then the bias value, each a
   * fresh leaf holding the next draw.
   */
  method NewNeuron(t: Tape, nin: nat, nonlin: bool, draws: seq<real>) returns (n: Neuron)
    requires t.Valid() && |draws| == nin + 1
    modifies t
    ensures t.Valid() && fresh(t.grad)
    ensures Appended(old(t.nodes), old(t.grad[..]), draws, t.nodes, t.grad[..])
    ensures NeuronShape(n, nin, nonlin) && NeuronParams(n) == Range(old(|t.nodes|), old(|t.nodes|) + nin + 1)
  {
    ghost var n0 := |t.nodes|;
    var ws := [];
    var i := 0;
    AppendedNone(t.nodes, t.grad[..], draws[..0]);
    while i <= nin
      invariant 0 <= i <= nin + 1 && t.Valid()
      invariant i > 0 ==> fresh(t.grad)
      invariant ws == Range(n0, n0 + i)
      invariant Appended(old(t.nodes), old(t.grad[..]), draws[..i], t.nodes, t.grad[..])
    {
      ghost var nodes1, grad1 := t.nodes, t.grad[..];
      var v := t.NewValue(draws[i]);
      AppendedStep(old(t.nodes), old(t.grad[..]), draws[..i], [draws[i]], nodes1, grad1, t.nodes, t.grad[..]);
      assert draws[..i] + [draws[i]] == draws[..i + 1];
      ws := ws + [v];
      i := i + 1;
    }
    assert draws[..nin + 1] == draws;
    n := Neuron(ws[..nin], ws[nin], nonlin);
    assert NeuronParams(n) == ws;
  }

  lemma MulSucc(k: nat, c: nat)
    ensures (k + 1) * c == k * c + c
  {
  }

  /** The first `k` neurons of a layer under construction, whose parameters start at handle `n0`. */
  ghost predicate LayerBuilt(ns: seq<Neuron>, nin: nat, nonlin: bool, k: nat, used: nat, n0: nat)
  {
    |ns| == k && used == k * (nin + 1) &&
    (forall q :: 0 <= q < k ==> NeuronShape(ns[q], nin, nonlin)) &&
    LayerParams(ns) == Range(n0, n0 + used)
  }

  lemma LayerBuiltStep(ns: seq<Neuron>, nin: nat, nonlin: bool, k: nat, used: nat, n0: nat, n: Neuron)
    requires LayerBuilt(ns, nin, nonlin, k, used, n0)
    requires NeuronShape(n, nin, nonlin) && NeuronParams(n) == Range(n0 + used, n0 + used + nin + 1)
    ensures LayerBuilt(ns + [n], nin, nonlin, k + 1, used + nin + 1, n0)
  {
    assert (ns + [n])[..k] == ns;
    RangeSplit(n0, n0 + used, n0 + used + nin + 1);
    MulSucc(k, nin + 1);
  }

  /** `Layer(nin, nout, nonlin)`: `nout` neurons built one after the other. */
  method NewLayer(t: Tape, nin: nat, nout: nat, nonlin: bool, draws: seq<real>) returns (l: Layer)
    requires t.Valid() && |draws| == nout * (nin + 1)
    modifies t
    ensures t.Valid() && (fresh(t.grad) || t.grad == old(t.grad))
    ensures Appended(old(t.nodes), old(t.grad[..]), draws, t.nodes, t.grad[..])
    ensures LayerShape(l, nin, nout, nonlin) && LayerParams(l.neurons) == Range(old(|t.nodes|), old(|t.nodes|) + |draws|)
  {
    ghost var n0 := |t.nodes|;
    var ns := [];
    var k: nat, used: nat := 0, 0;
    AppendedNone(t.nodes, t.grad[..], draws[..0]);
    while k < nout
      invariant k <= nout && used <= |draws| && t.Valid()
      invariant fresh(t.grad) || t.grad == old(t.grad)
      invariant LayerBuilt(ns, nin, nonlin, k, used, n0)
      invariant Appended(old(t.nodes), old(t.grad[..]), draws[..used], t.nodes, t.grad[..])
    {
      assert used + nin + 1 <= |draws| by {
        MulSucc(k, nin + 1);
        MulMono(k + 1, nout, nin + 1);
      }
      ghost var nodes1, grad1 := t.nodes, t.grad[..];
      var n := NewNeuron(t, nin, nonlin, draws[used..used + nin + 1]);
      AppendedStep(old(t.nodes), old(t.grad[..]), draws[..used], draws[used..used + nin + 1], nodes1, grad1, t.nodes, t.grad[..]);
      assert draws[..used] + draws[used..used + nin + 1] == draws[..used + nin + 1];
      LayerBuiltStep(ns, nin, nonlin, k, used, n0, n);
      ns := ns + [n];
      k, used := k + 1, used + nin + 1;
    }
    assert draws[..used] == draws;
    l := Layer(ns);
  }

  lemma MulMono(a: nat, b: nat, c: nat)
    requires a <= b
    ensures a * c <= b * c
  {
  }

  lemma {:induction false} ParamCountGrows(nin: nat, nouts: seq<nat>, i: nat, j: nat)
    requires i <= j <= |nouts|
    ensures ParamCount(nin, nouts, i) <= ParamCount(nin, nouts, j)
    decreases j
  {
    if i < j {
      ParamCountGrows(nin, nouts, i, j - 1);
    }
  }

  /** The first `i` layers of `MLP(nin, nouts)` under construction, whose parameters start at handle `n0`. */
  ghost predicate MlpBuilt(ls: seq<Layer>, nin: nat, nouts: seq<nat>, i: nat, used: nat, n0: nat)
  {
    i <= |nouts| && |ls| == i && used == ParamCount(nin, nouts, i) &&
    (forall q :: 0 <= q < i ==> LayerShape(ls[q], Sizes(nin, nouts)[q], nouts[q], q != |nouts| - 1)) &&
    MlpParams(ls) == Range(n0, n0 + used)
  }

  lemma MlpBuiltStep(ls: seq<Layer>, nin: nat, nouts: seq<nat>, i: nat, used: nat, n0: nat, l: Layer, size: nat)
    requires MlpBuilt(ls, nin, nouts, i, used, n0) && i < |nouts|
    requires size == nouts[i] * (Sizes(nin, nouts)[i] + 1)
    requires LayerShape(l, Sizes(nin, nouts)[i], nouts[i], i != |nouts| - 1)
    requires LayerParams(l.neurons) == Range(n0 + used, n0 + used + size)
    ensures MlpBuilt(ls + [l], nin, nouts, i + 1, used + size, n0)
  {
    assert (ls + [l])[..i] == ls;
    RangeSplit(n0, n0 + used, n0 + used + size);
  }

  /** One iteration of the constructor of `MLP`: builds layer `i` from the next draws. */
  method AddLayer(t: Tape, nin: nat, nouts: seq<nat>, draws: seq<real>, ls: seq<Layer>, i: nat, used: nat, ghost n0: nat)
    returns (ls': seq<Layer>, used': nat)
    requires t.Valid() && i < |nouts| && |draws| == ParamCount(nin, nouts, |nouts|)
    requires MlpBuilt(ls, nin, nouts, i, used, n0) && |t.nodes| == n0 + used
    modifies t
    ensures t.Valid() && (fresh(t.grad) || t.grad == old(t.grad))
    ensures used <= used' <= |draws| && MlpBuilt(ls', nin, nouts, i + 1, used', n0) && |t.nodes| == n0 + used'
    ensures Appended(old(t.nodes), old(t.grad[..]), draws[used..used'], t.nodes, t.grad[..])
  {
    var sz := Sizes(nin, nouts);
    var size := nouts[i] * (sz[i] + 1);
    ParamCountGrows(nin, nouts, i + 1, |nouts|);
    var l := NewLayer(t, sz[i], nouts[i], i != |nouts| - 1, draws[used..used + size]);
    MlpBuiltStep(ls, nin, nouts, i, used, n0, l, size);
    ls', used' := ls + [l], used + size;
  }

  /** Draws consumed in two runs are the draws of one run over both. */
  lemma AppendedMore(nodes0: seq<Node>, grad0: seq<real>, draws: seq<real>, used: nat, used': nat,
                     nodes1: seq<Node>, grad1: seq<real>, nodes2: seq<Node>, grad2: seq<real>)
    requires used <= used' <= |draws|
    requires Appended(nodes0, grad0, draws[..used], nodes1, grad1)
    requires Appended(nodes1, grad1, draws[used..used'], nodes2, grad2)
    ensures Appended(nodes0, grad0, draws[..used'], nodes2, grad2)
  {
    AppendedStep(nodes0, grad0, draws[..used], draws[used..used'], nodes1, grad1, nodes2, grad2);
    assert draws[..used] + draws[used..used'] == draws[..used'];
  }

  /**
   * `MLP(nin, nouts)`: layer `i` has `sz[i]` inputs and `sz[i + 1]` neurons,
   * non-linear except for the last; the draws are consumed in creation order.
   */
  method NewMlp(t: Tape, nin: nat, nouts: seq<nat>, draws: seq<real>) returns (m: Mlp)
    requires t.Valid() && |draws| == ParamCount(nin, nouts, |nouts|)
    modifies t
    ensures t.Valid() && (fresh(t.grad) || t.grad == old(t.grad))
    ensures Appended(old(t.nodes), old(t.grad[..]), draws, t.nodes, t.grad[..])
    ensures MlpShape(m, nin, nouts) && MlpParams(m.layers) == Range(old(|t.nodes|), old(|t.nodes|) + |draws|)
  {
    ghost var nodes0, grad0 := t.nodes, t.grad[..];
    ghost var n0 := |t.nodes|;
    var ls := [];
    var i: nat, used: nat := 0, 0;
    AppendedNone(t.nodes, t.grad[..], draws[..0]);
    while i < |nouts|
      invariant used <= |draws| && t.Valid() && |t.nodes| == n0 + used
      invariant fresh(t.grad) || t.grad == old(t.grad)
      invariant MlpBuilt(ls, nin, nouts, i, used, n0)
      invariant Appended(nodes0, grad0, draws[..used], t.nodes, t.grad[..])
    {
      ghost var nodes1, grad1 := t.nodes, t.grad[..];
      var used' := used;
      ls, used' := AddLayer(t, nin, nouts, draws, ls, i, used, n0);
      AppendedMore(nodes0, grad0, draws, used, used', nodes1, grad1, t.nodes, t.grad[..]);
      i, used := i + 1, used';
    }
    assert draws[..used] == draws;
    m := Mlp(ls);
  }

  /**
   * The parameters of a freshly built network are the values it created, in
   * creation order: pairwise distinct leaves, the `p`-th holding draw `p`.
   */
  lemma FreshParams(nodes0: seq<Node>, draws: seq<real>, params: seq<nat>, nodes: seq<Node>)
    requires nodes == nodes0 + LeafNodes(draws) && params == Range(|nodes0|, |nodes0| + |draws|)
    ensures |params| == |draws|
    ensures forall p, q :: 0 <= p < q < |params| ==> params[p] != params[q]
    ensures forall p :: 0 <= p < |params| ==> nodes[params[p]] == Node(draws[p], Leaf)
  {
  }

  // ---------------------------------------------------------------------
  // Forward composition, on values

  function Min(a: nat, b: nat): nat
  {
    if a < b then a else b
  }

  /** `act = b; act = act + wi * xi` for the first `k` zipped pairs. */
  function Act(b: real, w: seq<real>, x: seq<real>, k: nat): real
    requires k <= |w| && k <= |x|
  {
    if k == 0 then b else Act(b, w, x, k - 1) + w[k - 1] * x[k - 1]
  }

  /**
   * `Neuron.__call__` on data: the bias plus the products of the zipped
   * weights and inputs (`zip` stops at the shorter list), then `relu` when
   * the neuron is non-linear.
   */
  function NeuronValue(w: seq<real>, b: real, x: seq<real>, nonlin: bool): (r: real)
    ensures nonlin ==> r >= 0.0
  {
    var act := Act(b, w, x, Min(|w|, |x|));
    if nonlin then ReluValue(act) else act
  }

  /** Every handle of the neuron names a value on a tape of `size` values. */
  predicate NeuronIn(n: Neuron, size: nat)
  {
    (forall p :: 0 <= p < |n.w| ==> n.w[p] < size) && n.b < size
  }

  predicate LayerIn(l: Layer, size: nat)
  {
    forall k :: 0 <= k < |l.neurons| ==> NeuronIn(l.neurons[k], size)
  }

  predicate MlpIn(m: Mlp, size: nat)
  {
    forall i :: 0 <= i < |m.layers| ==> LayerIn(m.layers[i], size)
  }

  predicate OperandIn(o: Operand, size: nat)
  {
    o.Ref? ==> o.index < size
  }

  predicate OperandsIn(xs: seq<Operand>, size: nat)
  {
    forall p :: 0 <= p < |xs| ==> OperandIn(xs[p], size)
  }

  predicate SignalIn(x: Signal, size: nat)
  {
    match x
    case Scalar(v) => OperandIn(v, size)
    case Vector(vs) => OperandsIn(vs, size)
  }

  function OperandData(nodes: seq<Node>, o: Operand): real
    requires OperandIn(o, |nodes|)
  {
    match o
    case Ref(i) => nodes[i].data
    case Num(x) => x
  }

  function Data(nodes: seq<Node>, xs: seq<Operand>): (r: seq<real>)
    requires OperandsIn(xs, |nodes|)
    ensures |r| == |xs|
  {
    seq(|xs|, p requires 0 <= p < |xs| => OperandData(nodes, xs[p]))
  }

  function SignalData(nodes: seq<Node>, x: Signal): Val
    requires SignalIn(x, |nodes|)
  {
    match x
    case Scalar(v) => One(OperandData(nodes, v))
    case Vector(vs) => Many(Data(nodes, vs))
  }

  /** The data of the weights of a neuron. */
  function Weights(nodes: seq<Node>, n: Neuron): (r: seq<real>)
    requires NeuronIn(n, |nodes|)
    ensures |r| == |n.w|
  {
    seq(|n.w|, p requires 0 <= p < |n.w| => nodes[n.w[p]].data)
  }

  /** The output of neuron `n` of a network whose parameters are on `nodes`. */
  function NeuronOut(nodes: seq<Node>, n: Neuron, x: seq<real>): real
    requires NeuronIn(n, |nodes|)
  {
    NeuronValue(Weights(nodes, n), nodes[n.b].data, x, n.nonlin)
  }

  /** The list a layer iterates over: a single value contributes none. */
  function Inputs(x: Val): seq<real>
  {
    if x.Many? then x.rs else []
  }

  /** The outputs of the neurons of `l`, each on the same input `xs`. */
  function Outs(nodes: seq<Node>, l: Layer, xs: seq<real>): (r: seq<real>)
    requires LayerIn(l, |nodes|)
    ensures |r| == |l.neurons|
  {
    seq(|l.neurons|, k requires 0 <= k < |l.neurons| => NeuronOut(nodes, l.neurons[k], xs))
  }

  /** Output `k` of a layer result: the value itself when the layer returned a single one. */
  function Item(v: Val, k: nat): real
    requires if v.One? then k == 0 else k < |v.rs|
  {
    if v.One? then v.r else v.rs[k]
  }

  /**
   * `Layer.__call__` on data: a single value is not iterable, so a layer with
   * a neuron refuses it; otherwise every neuron sees the same input, and a
   * single output is returned on its own.
   */
  function LayerOut(nodes: seq<Node>, l: Layer, x: Val): (r: Result<Val>)
    requires LayerIn(l, |nodes|)
    ensures r.Err? <==> x.One? && |l.neurons| > 0
    ensures r.Err? ==> r.fault == ValueNotIterable
    ensures r.Ok? ==> (r.value.One? <==> |l.neurons| == 1)
    ensures r.Ok? && r.value.Many? ==> |r.value.rs| == |l.neurons|
    ensures r.Ok? ==> forall k :: 0 <= k < |l.neurons| ==> Item(r.value, k) == NeuronOut(nodes, l.neurons[k], Inputs(x))
  {
    if x.One? && |l.neurons| > 0 then Err(ValueNotIterable)
    else
      var outs := Outs(nodes, l, Inputs(x));
      if |outs| == 1 then Ok(One(outs[0])) else Ok(Many(outs))
  }

  /** `MLP.__call__` on data: the layers applied in order; a failure ends the call. */
  function MlpOut(nodes: seq<Node>, ls: seq<Layer>, x: Val): (r: Result<Val>)
    requires forall i :: 0 <= i < |ls| ==> LayerIn(ls[i], |nodes|)
    ensures r.Err? ==> r.fault == ValueNotIterable
    ensures r.Ok? && ls != [] ==> (r.value.One? <==> |ls[|ls| - 1].neurons| == 1)
  {
    if ls == [] then Ok(x)
    else
      match MlpOut(nodes, ls[..|ls| - 1], x)
      case Err(f) => Err(f)
      case Ok(y) => LayerOut(nodes, ls[|ls| - 1], y)
  }

  /** `Act` looks at the first `k` pairs only. */
  lemma {:induction false} ActPrefix(b: real, w: seq<real>, x: seq<real>, w': seq<real>, x': seq<real>, k: nat)
    requires k <= |w| && k <= |x| && k <= |w'| && k <= |x'|
    requires w[..k] == w'[..k] && x[..k] == x'[..k]
    ensures Act(b, w, x, k) == Act(b, w', x', k)
  {
    if k > 0 {
      assert w[..k - 1] == w[..k][..k - 1] && w'[..k - 1] == w'[..k][..k - 1];
      assert x[..k - 1] == x[..k][..k - 1] && x'[..k - 1] == x'[..k][..k - 1];
      ActPrefix(b, w, x, w', x', k - 1);
      assert w[k - 1] == w[..k][k - 1] && w'[k - 1] == w'[..k][k - 1];
      assert x[k - 1] == x[..k][k - 1] && x'[k - 1] == x'[..k][k - 1];
    }
  }

  /**
   * `zip` stops at the shorter list: a neuron ignores the inputs past its
   * last weight, and the weights past the last input.
   */
  lemma ZipStops(w: seq<real>, b: real, x: seq<real>, nonlin: bool)
    ensures var m := Min(|w|, |x|);
      NeuronValue(w, b, x, nonlin) == NeuronValue(w[..m], b, x[..m], nonlin)
  {
    var m := Min(|w|, |x|);
    assert w[..m][..m] == w[..m] && x[..m][..m] == x[..m];
    ActPrefix(b, w, x, w[..m], x[..m], m);
  }

  /** An error in an early layer ends `MLP.__call__`: later layers do not change it. */
  lemma {:induction false} MlpOutErrSticks(nodes: seq<Node>, ls: seq<Layer>, x: Val, i: nat)
    requires i <= |ls| && forall k :: 0 <= k < |ls| ==> LayerIn(ls[k], |nodes|)
    requires MlpOut(nodes, ls[..i], x).Err?
    ensures MlpOut(nodes, ls, x) == MlpOut(nodes, ls[..i], x)
  {
    if i < |ls| {
      assert ls[..|ls| - 1][..i] == ls[..i];
      MlpOutErrSticks(nodes, ls[..|ls| - 1], x, i);
    } else {
      assert ls[..i] == ls;
    }
  }

  /** Layer `i` has `nouts[i]` neurons. */
  predicate Widths(ls: seq<Layer>, nouts: seq<nat>)
  {
    |ls| == |nouts| && forall i :: 0 <= i < |ls| ==> |ls[i].neurons| == nouts[i]
  }

  /**
   * No layer returns a single value to a next layer that has neurons: a
   * layer of width one hands its caller a `Value`, not a list.
   */
  predicate Chainable(nouts: seq<nat>)
  {
    forall i :: 0 <= i < |nouts| - 1 ==> nouts[i] != 1 || nouts[i + 1] == 0
  }

  /**
   * Given a list, `MLP.__call__` succeeds exactly when the widths are
   * chainable; its result is a single value exactly when the last layer has
   * one neuron, and otherwise a list as long as the last layer.
   */
  lemma {:induction false} MlpOutcome(nodes: seq<Node>, ls: seq<Layer>, nouts: seq<nat>, xs: seq<real>)
    requires Widths(ls, nouts) && forall k :: 0 <= k < |ls| ==> LayerIn(ls[k], |nodes|)
    ensures MlpOut(nodes, ls, Many(xs)).Ok? <==> Chainable(nouts)
    ensures MlpOut(nodes, ls, Many(xs)).Err? ==> MlpOut(nodes, ls, Many(xs)).fault == ValueNotIterable
    ensures |nouts| > 0 && MlpOut(nodes, ls, Many(xs)).Ok? ==>
      var v := MlpOut(nodes, ls, Many(xs)).value;
      (v.One? <==> nouts[|nouts| - 1] == 1) && (v.Many? ==> |v.rs| == nouts[|nouts| - 1])
  {
    if ls != [] {
      var n := |ls|;
      var front, nfront := ls[..n - 1], nouts[..n - 1];
      assert Widths(front, nfront);
      MlpOutcome(nodes, front, nfront, xs);
      if n > 1 {
        assert Chainable(nouts) <==> Chainable(nfront) && (nouts[n - 2] != 1 || nouts[n - 1] == 0) by {
          if Chainable(nfront) && (nouts[n - 2] != 1 || nouts[n - 1] == 0) {
            forall i | 0 <= i < n - 1
              ensures nouts[i] != 1 || nouts[i + 1] == 0
            {
              if i < n - 2 {
                assert nfront[i] == nouts[i] && nfront[i + 1] == nouts[i + 1];
              }
            }
          }
        }
      } else {
        assert Chainable(nouts);
      }
    }
  }

  lemma ShapeWidths(m: Mlp, nin: nat, nouts: seq<nat>)
    requires MlpShape(m, nin, nouts)
    ensures Widths(m.layers, nouts)
  {
    forall i | 0 <= i < |nouts|
      ensures |m.layers[i].neurons| == nouts[i]
    {
      assert LayerShape(m.layers[i], Sizes(nin, nouts)[i], nouts[i], i != |nouts| - 1);
    }
  }

  /** The demo network `MLP(3, [4, 4, 1])` maps a list to a single value. */
  lemma DemoOutcome(nodes: seq<Node>, m: Mlp, xs: seq<real>)
    requires MlpShape(m, 3, [4, 4, 1]) && MlpIn(m, |nodes|)
    ensures MlpOut(nodes, m.layers, Many(xs)).Ok? && MlpOut(nodes, m.layers, Many(xs)).value.One?
  {
    DemoChainable();
    ShapeWidths(m, 3, [4, 4, 1]);
    MlpOutcome(nodes, m.layers, [4, 4, 1], xs);
  }

  lemma DemoChainable()
    ensures Chainable([4, 4, 1])
  {
    var nouts := [4, 4, 1];
    assert nouts[0] == 4 && nouts[1] == 4;
  }

  /** A hidden layer of width one makes `MLP(2, [1, 1])` fail: its output is not iterable. */
  lemma NarrowHiddenLayerFails(nodes: seq<Node>, m: Mlp, xs: seq<real>)
    requires MlpShape(m, 2, [1, 1]) && MlpIn(m, |nodes|)
    ensures MlpOut(nodes, m.layers, Many(xs)) == Err(ValueNotIterable)
  {
    ShapeWidths(m, 2, [1, 1]);
    MlpOutcome(nodes, m.layers, [1, 1], xs);
    assert !Chainable([1, 1]) by {
      assert [1, 1][0] == 1 && [1, 1][1] != 0;
    }
  }

  // ---------------------------------------------------------------------
  // Forward composition, on the tape

  /**
   * The tape `(nodes, grad)` extends `(nodes0, grad0)`: the old values are
   * untouched and every new value has a zero `grad`.
   */
  ghost predicate Grown(nodes0: seq<Node>, grad0: seq<real>, nodes: seq<Node>, grad: seq<real>)
  {
    |nodes0| <= |nodes| && nodes[..|nodes0|] == nodes0 && grad == grad0 + Zeros(|nodes| - |nodes0|)
  }

  lemma GrownNone(nodes: seq<Node>, grad: seq<real>)
    ensures Grown(nodes, grad, nodes, grad)
  {
    assert Zeros(0) == [];
  }

  lemma GrownStep(nodes0: seq<Node>, grad0: seq<real>, nodes1: seq<Node>, grad1: seq<real>, nodes2: seq<Node>, grad2: seq<real>)
    requires Grown(nodes0, grad0, nodes1, grad1) && Grown(nodes1, grad1, nodes2, grad2)
    ensures Grown(nodes0, grad0, nodes2, grad2)
  {
    assert nodes2[..|nodes0|] == nodes1[..|nodes1|][..|nodes0|];
    assert Zeros(|nodes1| - |nodes0|) + Zeros(|nodes2| - |nodes1|) == Zeros(|nodes2| - |nodes0|);
  }

  /** `wi * xi`, one product of the loop of `Neuron.__call__`. */
  method WeightedInput(t: Tape, wi: nat, xi: Operand) returns (p: nat)
    requires t.Valid() && wi < |t.nodes| && OperandIn(xi, |t.nodes|)
    modifies t
    ensures t.Valid() && fresh(t.grad)
    ensures Grown(old(t.nodes), old(t.grad[..]), t.nodes, t.grad[..])
    ensures p < |t.nodes| && t.nodes[p].data == old(t.nodes)[wi].data * OperandData(old(t.nodes), xi)
  {
    p := t.Times(wi, xi);
    assert t.nodes[..old(|t.nodes|)] == old(t.nodes);
  }

  /** `act + wi * xi`, the accumulation step of `Neuron.__call__`. */
  method AddProduct(t: Tape, act: nat, p: nat) returns (act': nat)
    requires t.Valid() && act < |t.nodes| && p < |t.nodes|
    modifies t
    ensures t.Valid() && fresh(t.grad)
    ensures Grown(old(t.nodes), old(t.grad[..]), t.nodes, t.grad[..])
    ensures act' < |t.nodes| && t.nodes[act'].data == old(t.nodes)[act].data + old(t.nodes)[p].data
  {
    act' := t.Plus(act, Ref(p));
    assert t.nodes[..old(|t.nodes|)] == old(t.nodes);
  }

  /** A value that is on the tape keeps its data as the tape grows. */
  lemma GrownData(nodes0: seq<Node>, grad0: seq<real>, nodes: seq<Node>, grad: seq<real>, n: Neuron, xs: seq<Operand>)
    requires Grown(nodes0, grad0, nodes, grad) && NeuronIn(n, |nodes0|) && OperandsIn(xs, |nodes0|)
    ensures NeuronIn(n, |nodes|) && OperandsIn(xs, |nodes|)
    ensures Weights(nodes, n) == Weights(nodes0, n) && nodes[n.b] == nodes0[n.b]
    ensures Data(nodes, xs) == Data(nodes0, xs)
  {
    forall p | 0 <= p < |n.w|
      ensures nodes[n.w[p]] == nodes0[n.w[p]]
    {
      assert nodes[..|nodes0|][n.w[p]] == nodes[n.w[p]];
    }
    forall p | 0 <= p < |xs| && xs[p].Ref?
      ensures nodes[xs[p].index] == nodes0[xs[p].index]
    {
      assert nodes[..|nodes0|][xs[p].index] == nodes[xs[p].index];
    }
    assert nodes[..|nodes0|][n.b] == nodes[n.b];
  }

  /** One turn of the loop of `Neuron.__call__`: `act = act + wi * xi` for pair `i`. */
  method NeuronStep(t: Tape, n: Neuron, x: seq<Operand>, act: nat, i: nat, ghost nodes0: seq<Node>, ghost grad0: seq<real>)
    returns (act': nat)
    requires t.Valid() && NeuronIn(n, |nodes0|) && OperandsIn(x, |nodes0|) && i < |n.w| && i < |x|
    requires Grown(nodes0, grad0, t.nodes, t.grad[..])
    requires act < |t.nodes| && t.nodes[act].data == Act(nodes0[n.b].data, Weights(nodes0, n), Data(nodes0, x), i)
    modifies t
    ensures t.Valid() && fresh(t.grad)
    ensures Grown(nodes0, grad0, t.nodes, t.grad[..])
    ensures act' < |t.nodes| && t.nodes[act'].data == Act(nodes0[n.b].data, Weights(nodes0, n), Data(nodes0, x), i + 1)
  {
    ghost var nodes1, grad1 := t.nodes, t.grad[..];
    GrownData(nodes0, grad0, nodes1, grad1, n, x);
    var p := WeightedInput(t, n.w[i], x[i]);
    ghost var nodes2, grad2 := t.nodes, t.grad[..];
    GrownStep(nodes0, grad0, nodes1, grad1, nodes2, grad2);
    act' := AddProduct(t, act, p);
    GrownStep(nodes0, grad0, nodes2, grad2, t.nodes, t.grad[..]);
  }

  /**
   * `Neuron.__call__`: starts from the bias value, adds `wi * xi` for each
   * zipped pair, and applies `relu` when the neuron is non-linear.
   */
  method CallNeuron(t: Tape, n: Neuron, x: seq<Operand>) returns (out: nat)
    requires t.Valid() && NeuronIn(n, |t.nodes|) && OperandsIn(x, |t.nodes|)
    modifies t
    ensures t.Valid() && (fresh(t.grad) || t.grad == old(t.grad))
    ensures Grown(old(t.nodes), old(t.grad[..]), t.nodes, t.grad[..])
    ensures out < |t.nodes| && t.nodes[out].data == NeuronOut(old(t.nodes), n, Data(old(t.nodes), x))
  {
    ghost var nodes0, grad0 := t.nodes, t.grad[..];
    var act: nat := n.b;
    var m := Min(|n.w|, |x|);
    var i: nat := 0;
    GrownNone(nodes0, grad0);
    while i < m
      invariant i <= m && t.Valid() && (fresh(t.grad) || t.grad == old(t.grad))
      invariant Grown(nodes0, grad0, t.nodes, t.grad[..])
      invariant act < |t.nodes| && t.nodes[act].data == Act(nodes0[n.b].data, Weights(nodes0, n), Data(nodes0, x), i)
    {
      act := NeuronStep(t, n, x, act, i, nodes0, grad0);
      i := i + 1;
    }
    if n.nonlin {
      ghost var nodes1, grad1 := t.nodes, t.grad[..];
      out := t.ApplyRelu(act);
      assert Grown(nodes1, grad1, t.nodes, t.grad[..]) by {
        assert t.nodes[..|nodes1|] == nodes1;
      }
      GrownStep(nodes0, grad0, nodes1, grad1, t.nodes, t.grad[..]);
    } else {
      out := act;
    }
  }

  /** The handles of the outputs, as a list of operands. */
  function Refs(outs: seq<nat>): (r: seq<Operand>)
    ensures |r| == |outs|
  {
    seq(|outs|, p requires 0 <= p < |outs| => Ref(outs[p]))
  }

  /** `outs` holds the outputs of the first `|outs|` neurons of `l` on input `xs`. */
  ghost predicate Outputs(nodes0: seq<Node>, l: Layer, xs: seq<real>, outs: seq<nat>, nodes: seq<Node>)
  {
    LayerIn(l, |nodes0|) && |outs| <= |l.neurons| &&
    forall p :: 0 <= p < |outs| ==> outs[p] < |nodes| && nodes[outs[p]].data == NeuronOut(nodes0, l.neurons[p], xs)
  }

  /** A layer whose values are on a tape stays on it, with the same outputs, as the tape grows. */
  lemma LayerOutGrown(nodes0: seq<Node>, nodes: seq<Node>, l: Layer, x: Val)
    requires LayerIn(l, |nodes0|) && |nodes0| <= |nodes| && nodes[..|nodes0|] == nodes0
    ensures LayerIn(l, |nodes|) && LayerOut(nodes, l, x) == LayerOut(nodes0, l, x)
  {
    forall k | 0 <= k < |l.neurons|
      ensures NeuronOut(nodes, l.neurons[k], Inputs(x)) == NeuronOut(nodes0, l.neurons[k], Inputs(x))
    {
      var n := l.neurons[k];
      forall p | 0 <= p < |n.w|
        ensures nodes[n.w[p]] == nodes0[n.w[p]]
      {
        assert nodes[..|nodes0|][n.w[p]] == nodes[n.w[p]];
      }
      assert Weights(nodes, n) == Weights(nodes0, n);
      assert nodes[..|nodes0|][n.b] == nodes[n.b];
    }
    assert Outs(nodes, l, Inputs(x)) == Outs(nodes0, l, Inputs(x));
  }

  /** One neuron of the list comprehension of `Layer.__call__`. */
  method LayerStep(t: Tape, l: Layer, x: seq<Operand>, outs: seq<nat>, ghost nodes0: seq<Node>, ghost grad0: seq<real>)
    returns (outs': seq<nat>)
    requires t.Valid() && OperandsIn(x, |nodes0|) && |outs| < |l.neurons|
    requires Grown(nodes0, grad0, t.nodes, t.grad[..]) && Outputs(nodes0, l, Data(nodes0, x), outs, t.nodes)
    modifies t
    ensures t.Valid() && (fresh(t.grad) || t.grad == old(t.grad))
    ensures Grown(nodes0, grad0, t.nodes, t.grad[..])
    ensures |outs'| == |outs| + 1 && Outputs(nodes0, l, Data(nodes0, x), outs', t.nodes)
  {
    ghost var nodes1, grad1 := t.nodes, t.grad[..];
    var n := l.neurons[|outs|];
    GrownData(nodes0, grad0, nodes1, grad1, n, x);
    var o := CallNeuron(t, n, x);
    GrownStep(nodes0, grad0, nodes1, grad1, t.nodes, t.grad[..]);
    forall p | 0 <= p < |outs|
      ensures t.nodes[outs[p]] == nodes1[outs[p]]
    {
      assert t.nodes[..|nodes1|][outs[p]] == t.nodes[outs[p]];
    }
    outs' := outs + [o];
  }

  /**
   * `Layer.__call__`: a single value as input fails in `zip` once a neuron
   * runs; otherwise each neuron is called on the input in turn, and the
   * outputs come back as a list, or as the one value when there is one.
   */
  method CallLayer(t: Tape, l: Layer, x: Signal) returns (r: Result<Signal>)
    requires t.Valid() && LayerIn(l, |t.nodes|) && SignalIn(x, |t.nodes|)
    modifies t
    ensures t.Valid() && (fresh(t.grad) || t.grad == old(t.grad))
    ensures Grown(old(t.nodes), old(t.grad[..]), t.nodes, t.grad[..])
    ensures r.Ok? ==> SignalIn(r.value, |t.nodes|)
    ensures LayerOut(old(t.nodes), l, SignalData(old(t.nodes), x)) ==
      if r.Ok? then Ok(SignalData(t.nodes, r.value)) else Err(r.fault)
  {
    ghost var nodes0, grad0 := t.nodes, t.grad[..];
    GrownNone(nodes0, grad0);
    if x.Scalar? && |l.neurons| > 0 {
      return Err(ValueNotIterable);
    }
    var xs := if x.Vector? then x.vs else [];
    assert Data(nodes0, xs) == Inputs(SignalData(nodes0, x));
    var outs: seq<nat> := [];
    while |outs| < |l.neurons|
      invariant t.Valid() && (fresh(t.grad) || t.grad == old(t.grad))
      invariant Grown(nodes0, grad0, t.nodes, t.grad[..])
      invariant Outputs(nodes0, l, Data(nodes0, xs), outs, t.nodes)
      decreases |l.neurons| - |outs|
    {
      outs := LayerStep(t, l, xs, outs, nodes0, grad0);
    }
    assert Data(t.nodes, Refs(outs)) == Outs(nodes0, l, Data(nodes0, xs));
    var refs := Refs(outs);
    if |outs| == 1 {
      r := Ok(Scalar(refs[0]));
    } else {
      r := Ok(Vector(refs));
    }
  }

  /**
   * `MLP.__call__` has run the first `i` layers on `x` without failing:
   * `y` carries what those layers compute, on a tape grown from `nodes0`.
   */
  ghost predicate MlpRan(nodes0: seq<Node>, grad0: seq<real>, m: Mlp, x: Signal, i: nat,
                         nodes: seq<Node>, grad: seq<real>, y: Signal)
  {
    MlpIn(m, |nodes0|) && SignalIn(x, |nodes0|) && i <= |m.layers| &&
    Grown(nodes0, grad0, nodes, grad) && SignalIn(y, |nodes|) &&
    MlpOut(nodes0, m.layers[..i], SignalData(nodes0, x)) == Ok(SignalData(nodes, y))
  }

  lemma MlpRanStart(nodes0: seq<Node>, grad0: seq<real>, m: Mlp, x: Signal)
    requires MlpIn(m, |nodes0|) && SignalIn(x, |nodes0|)
    ensures MlpRan(nodes0, grad0, m, x, 0, nodes0, grad0, x)
  {
    GrownNone(nodes0, grad0);
    assert m.layers[..0] == [];
  }

  lemma MlpRanDone(nodes0: seq<Node>, grad0: seq<real>, m: Mlp, x: Signal, nodes: seq<Node>, grad: seq<real>, y: Signal)
    requires MlpRan(nodes0, grad0, m, x, |m.layers|, nodes, grad, y)
    ensures MlpOut(nodes0, m.layers, SignalData(nodes0, x)) == Ok(SignalData(nodes, y))
  {
    assert m.layers[..|m.layers|] == m.layers;
  }

  /** One layer of the loop of `MLP.__call__`; a failure there is the failure of the whole call. */
  method MlpStep(t: Tape, m: Mlp, x: Signal, y: Signal, i: nat, ghost nodes0: seq<Node>, ghost grad0: seq<real>)
    returns (s: Result<Signal>)
    requires t.Valid() && i < |m.layers| && MlpRan(nodes0, grad0, m, x, i, t.nodes, t.grad[..], y)
    modifies t
    ensures t.Valid() && (fresh(t.grad) || t.grad == old(t.grad))
    ensures s.Ok? ==> MlpRan(nodes0, grad0, m, x, i + 1, t.nodes, t.grad[..], s.value)
    ensures s.Err? ==>
      Grown(nodes0, grad0, t.nodes, t.grad[..]) && MlpOut(nodes0, m.layers, SignalData(nodes0, x)) == Err(s.fault)
  {
    ghost var nodes1, grad1 := t.nodes, t.grad[..];
    LayerOutGrown(nodes0, nodes1, m.layers[i], SignalData(nodes1, y));
    s := CallLayer(t, m.layers[i], y);
    GrownStep(nodes0, grad0, nodes1, grad1, t.nodes, t.grad[..]);
    assert m.layers[..i + 1][..i] == m.layers[..i];
    if s.Err? {
      MlpOutErrSticks(nodes0, m.layers, SignalData(nodes0, x), i + 1);
    }
  }

  /** `MLP.__call__`: the layers are called in order; the first failure ends the call. */
  method CallMlp(t: Tape, m: Mlp, x: Signal) returns (r: Result<Signal>)
    requires t.Valid() && MlpIn(m, |t.nodes|) && SignalIn(x, |t.nodes|)
    modifies t
    ensures t.Valid() && (fresh(t.grad) || t.grad == old(t.grad))
    ensures Grown(old(t.nodes), old(t.grad[..]), t.nodes, t.grad[..])
    ensures r.Ok? ==> SignalIn(r.value, |t.nodes|)
    ensures MlpOut(old(t.nodes), m.layers, SignalData(old(t.nodes), x)) ==
      if r.Ok? then Ok(SignalData(t.nodes, r.value)) else Err(r.fault)
  {
    ghost var nodes0, grad0 := t.nodes, t.grad[..];
    MlpRanStart(nodes0, grad0, m, x);
    var y := x;
    var i: nat := 0;
    while i < |m.layers|
      invariant t.Valid() && (fresh(t.grad) || t.grad == old(t.grad))
      invariant MlpRan(nodes0, grad0, m, x, i, t.nodes, t.grad[..], y)
    {
      var s := MlpStep(t, m, x, y, i, nodes0, grad0);
      if s.Err? {
        return Err(s.fault);
      }
      y := s.value;
      i := i + 1;
    }
    MlpRanDone(nodes0, grad0, m, x, t.nodes, t.grad[..], y);
    r := Ok(y);
  }
}
