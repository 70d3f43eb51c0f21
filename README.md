# Scalar reverse-mode autodiff, modelled in Dafny

This project models a small scalar automatic-differentiation engine and the
neural-network layer built on it:

- `Value` objects hold a number (`data`) and a gradient accumulator (`grad`),
  and record how they were computed (`_prev`, `_op`, `_backward`);
- `+`, `*`, `**` and `relu` build the computation graph;
- `backward` orders the graph topologically and runs every node's local rule
  once, in reverse order;
- `Neuron`, `Layer` and `MLP` compose these operations;
- `trace` collects the nodes and edges below a value, for drawing.

The model is organised as follows:

- **Values** live on a `Tape` (`Engine.Tape`).
  - The tape keeps an append-only sequence of nodes and an array of gradients.
  - A `Value` is the index of its node.
  - A node's rule (`ValueGraph.Rule`) stands for the source's `_backward`
    closure. Its operands always have smaller indices, so the graph is acyclic
    by construction.
  - `_prev` is the set `Children(rule)`. `_op` is `Op(rule)`.
- **Operators** (`Plus`, `Times`, `Raise`, `ApplyRelu`) append a node that holds
  the forward value (`Forward`) and a zero gradient. A plain-number operand is
  first promoted to a fresh leaf.
- **`Backward`** calls `BuildTopo`, a depth-first search, seeds `grad[out]`
  with 1 and runs the rules in reverse list order. It is proved against two
  references:
  - a value-level sweep (`Backprop.Sweep`), for any topological order the
    search may produce;
  - the forward-mode chain-rule derivative `ValueGraph.Deriv`. When every
    reachable derived node other than the output starts at gradient 0
    (`ResetDone`), the output's gradient is set to 1, and every other
    gradient grows by exactly `Deriv(out, u)`.
- **The network** (module `Nn`) is built on the same tape.
  - A neuron holds the indices of its weight values and bias value.
  - The random initial weights are a list of draws passed in.
  - `CallNeuron`, `CallLayer` and `CallMlp` are proved against value-level
    definitions (`NeuronValue`, `LayerOut`, `MlpOut`).
  - Those definitions carry the shape and failure properties of `__call__`.
- **`trace`** (module `Viz`) is a depth-first search over index sets. It
  returns exactly the nodes reachable from the root and the edge set
  `(child, v)`.

The files:

| file | module | models |
|---|---|---|
| `value_graph.dfy` | `ValueGraph` | nodes, rules, forward values, local rules, reachability, reference derivative |
| `backprop.dfy` | `Backprop` | `build_topo`, the reverse sweep and its correctness |
| `engine.dfy` | `Engine` | the `Value` operations on a tape |
| `scenarios.dfy` | `Scenarios` | concrete computations: `train_neuron` and single-operator checks |
| `nn.dfy` | `Nn` | `Neuron`, `Layer`, `MLP`: construction, parameters, calls |
| `viz.dfy` | `Viz` | `trace` |

## Model

| member | source | states |
|---|---|---|
| ValueGraph.Children | src/core.py:12 | `_prev`, the set of a node's operands, is empty exactly for a leaf. |
| ValueGraph.Op | src/core.py:14 | `_op` is the empty string exactly for a leaf. Every operator sets a non-empty label (lines 22, 36, 51, 76). |
| ValueGraph.Forward | src/core.py:21 | The data an operator gives its result: the sum (line 21), the product (35), the power (50) or the clamped value (75). A `relu` result, and the square `a * a`, are never negative, and `a ** 1` is `a`. |
| ValueGraph.Propagate | src/core.py:25-29 | One node's `_backward` closure (`+` here; `*`, `**` and `relu` at lines 39-44, 52-54, 78-83). It changes only its operands' gradients, and never the node's own gradient. |
| ValueGraph.AddRule | src/core.py:25-29 | For `a + b` with `a` and `b` distinct, `a.grad` and `b.grad` each gain `out.grad`. No other gradient changes. |
| ValueGraph.MulRule | src/core.py:39-44 | For `a * b` with `a` and `b` distinct, `a.grad` gains `b.data * out.grad` and `b.grad` gains `a.data * out.grad`. No other gradient changes. |
| ValueGraph.PowRule | src/core.py:48-54 | For `a ** k` with `k >= 1`, the data is `a.data ** k`, and `a.grad` gains `k * a.data ** (k - 1) * out.grad`. No other gradient changes. |
| ValueGraph.LeafInert | src/core.py:7-14 | A fresh `Value` has no children and an empty op, and its `_backward` changes no gradient. |
| ValueGraph.ConsistentAppend | src/core.py:21 | Adding a node whose operands already exist keeps the graph acyclic. If that node holds its forward value, every derived node still holds its operands' forward value. |
| ValueGraph.AddSelf | src/core.py:19-31 | `a + a` has the single child `a`, yet its rule adds twice the upstream gradient to `a.grad`. No other gradient changes. |
| ValueGraph.MulSelf | src/core.py:33-46 | `a * a` has the single child `a`, and its rule adds `2 * a.data * out.grad` to `a.grad`, the derivative of the square. No other gradient changes. |
| ValueGraph.ReluRule | src/core.py:74-85 | `relu` outputs 0 for negative data and the data otherwise, so never a negative number. Its rule passes the upstream gradient only when the input data is strictly positive. |
| Backprop.Visit | src/core.py:61-66 | `build_topo(v)` extends `topo` by exactly the not-yet-listed nodes reachable from `v`. Each node is listed after everything it reaches, and `visited` grows by the same nodes. |
| Backprop.BuildTopo | src/core.py:59-67 | The list holds every node reachable from the output, once each. Every node appears after all nodes it depends on. |
| Backprop.Sweep | src/core.py:71-72 | Running the closures of a list, last listed first, changes only gradients of nodes that are an operand of some listed node. |
| Backprop.SweepFrame | src/core.py:69-72 | Running the rules of reachable nodes never writes the output's gradient, nor the gradient of a node the output does not reach. |
| Backprop.SweepIsGradient | src/core.py:57-72 | With the reset discipline, the sweep seeded with 1 at the output leaves `grad[u] = old grad[u] + d out / d u` for every `u ≠ out`, and 1 at the output. This holds for every valid topological order. |
| Engine.Tape.Append | src/core.py:7-9 | A new value is appended with `grad` 0. Existing values and gradients are unchanged. |
| Engine.Tape.NewValue | src/core.py:7-14 | `Value(x)` appends a leaf holding `x` with zero gradient and keeps the tape consistent. |
| Engine.Tape.Promote | src/core.py:20 | A `Value` operand is used as is, and the tape is unchanged. A number becomes a fresh leaf. |
| Engine.Tape.Derive | src/core.py:21-22 | Appends a derived node holding its rule's forward value over the current data, with zero gradient. Consistency is preserved. |
| Engine.Tape.Plus | src/core.py:19-31 | `a + other`: promotes `other`, then appends a node with data `a.data + other.data`, children `{a, other}` and a zero gradient. Nothing else changes. |
| Engine.Tape.Times | src/core.py:33-46 | `a * other`: promotes `other`, then appends a node with data `a.data * other.data`, children `{a, other}` and a zero gradient. Nothing else changes. |
| Engine.Tape.Raise | src/core.py:48-55 | A `Value` exponent is refused before anything is created. A number `k` appends a node with data `a.data ** k`. |
| Engine.Tape.ApplyRelu | src/core.py:74-85 | Appends a node with data `max(a.data, 0)`, the single child `a` and a zero gradient. |
| Engine.Tape.RunRule | src/core.py:72 | Running `node._backward()` updates the gradients exactly as the node's local rule does, in place. |
| Engine.Tape.RunSweep | src/core.py:71-72 | Calling the rules of `reversed(topo)` in order leaves the gradients of the value-level sweep. |
| Engine.Tape.Backward | src/core.py:57-72 | Sets the output's `grad` to 1, leaves unreachable gradients unchanged and matches the sweep over some topological order. Under the reset discipline, it adds `d out / d u` to every other gradient. |
| Engine.Tape.SetData | src/core.py:110-111 | Overwrites one value's `data`. Its rule, every other node and all gradients are unchanged. |
| Engine.Tape.SetGrad | examples/train_demo.py:55-56 | Overwrites one value's `grad` and no other. |
| Scenarios.MulAdd | src/core.py:95 | `a * b + c` appends two nodes: the product, and the sum holding `a.data * b.data + c.data`. |
| Scenarios.MulAddFacts | src/core.py:95 | On the tape of `a * b + c`, the output data is `x*y + z`, and its derivatives with respect to `a`, `b`, `c` are `y`, `x`, 1. |
| Scenarios.MulAddBackward | src/core.py:90-102 | After one `backward` from `L = a * b + c` on fresh leaves, the gradients are `[b, a, 1, 1, 1]`. |
| Scenarios.TrainNeuron | src/core.py:88-117 | With `a = 2, b = 3, c = 10`: `L = 16`, and the gradients are 3, 2 and 1. After the step with rate 0.01 on `a` and `b`, the rebuilt loss is 15.8706, smaller than 16. |
| Scenarios.Square | src/core.py:33-46 | `a * a` with one backward pass gives `a.grad == 2 * a.data`. |
| Scenarios.Double | src/core.py:19-31 | `a + a` with one backward pass gives `a.grad == 2`. |
| Scenarios.CubeAtTwo | src/core.py:48-55 | `a ** 3` at 2 has data 8 and gives `a.grad == 12`. |
| Scenarios.ValueExponentRefused | src/core.py:49 | `a ** b` with `b` a `Value` is refused and leaves the tape at two values. |
| Scenarios.ReluAtZero | src/core.py:74-85 | `relu` at exactly 0 outputs 0 and passes no gradient back. |
| Scenarios.ProductBackward | src/core.py:33-46 | After one `backward` from `a * b`, the gradients of `a`, `b`, an unrelated `c` and the output are `[b, a, 0, 1]`. |
| Scenarios.Accumulate | src/core.py:70-72 | A second `backward` from `a + c`, without zeroing, adds to what the first pass left, giving `a.grad == b + 1`. |
| Nn.NeuronParamCount | src/nn.py:21-22 | `Neuron.parameters()` is the `nin` weights followed by the bias. |
| Nn.LayerParamCount | src/nn.py:33-37 | A layer of `nout` neurons with `nin` inputs has `nout * (nin + 1)` parameters. |
| Nn.MlpParamCount | src/nn.py:57-61 | The first `k` layers of `MLP(nin, nouts)` have `ParamCount(nin, nouts, k)` parameters. |
| Nn.DemoParamCount | examples/train_demo.py:29 | `MLP(3, [4, 4, 1])` has 41 parameters. |
| Nn.LayerParameters | src/nn.py:33-37 | The loop that extends `params` yields the neurons' parameters concatenated in order. |
| Nn.MlpParameters | src/nn.py:57-61 | The loop that extends `params` yields the layers' parameters concatenated in order. |
| Nn.NewNeuron | src/nn.py:7-10 | `Neuron(nin, nonlin)` creates `nin + 1` fresh leaves holding the next draws, weights first and then the bias. Its parameters are exactly those leaves, in order. |
| Nn.NewLayer | src/nn.py:26-27 | `Layer(nin, nout, nonlin)` creates `nout` neurons of that shape from consecutive draws. Its parameters are exactly the created leaves, in creation order. |
| Nn.AddLayer | src/nn.py:44-50 | One turn of the constructor loop appends layer `i`: `sz[i]` inputs, `sz[i+1]` neurons, non-linear except the last. Its parameters are the next draws, appended to the tape as fresh leaves. |
| Nn.NewMlp | src/nn.py:40-50 | `MLP(nin, nouts)` builds layer `i` with `sz[i]` inputs and `sz[i+1]` neurons, non-linear except the last. All draws are consumed, and the parameters are the created leaves in creation order. |
| Nn.FreshParams | src/nn.py:57-61 | The parameters of a freshly built network are pairwise distinct leaves, and parameter `p` holds draw `p`. |
| Nn.NeuronValue | src/nn.py:12-19 | A non-linear neuron never outputs a negative number. |
| Nn.ZipStops | src/nn.py:14 | `zip` stops at the shorter list: the output depends only on the first `min(|w|, |x|)` weights and inputs. |
| Nn.LayerOut | src/nn.py:29-31 | A single value fails exactly when the layer has a neuron. Otherwise the result is a single value iff there is one neuron, else a list as long as the layer, and output `k` is neuron `k` on the same input. |
| Nn.MlpOut | src/nn.py:52-55 | Applying the layers in order fails only with "not iterable". On success with at least one layer, the result is a single value iff the last layer has one neuron. |
| Nn.MlpOutErrSticks | src/nn.py:52-55 | Once a layer fails, the call fails with that error whatever layers follow. |
| Nn.MlpOutcome | src/nn.py:52-55 | Given a list, `MLP.__call__` succeeds iff no width-one layer is followed by a layer with neurons, and fails only with "not iterable". On success the result is a single value iff the last layer has one neuron, else a list of its width. |
| Nn.DemoOutcome | examples/train_demo.py:29-39 | The demo network maps a list to a single value. |
| Nn.NarrowHiddenLayerFails | src/nn.py:29-31 | `MLP(2, [1, 1])` fails on every input list: its hidden layer hands a single `Value` to the next layer. |
| Nn.WeightedInput | src/nn.py:15 | `wi * xi` appends a node holding the product of the weight's data and the input's data. Old values are untouched, and new values have zero gradient. |
| Nn.AddProduct | src/nn.py:15 | `act + wi * xi` appends a node holding the sum of the two data. Old values are untouched, and new values have zero gradient. |
| Nn.NeuronStep | src/nn.py:14-15 | One loop turn appends `wi * xi` and `act + wi * xi`. The new `act` holds the running sum over one more pair, and old values are untouched. |
| Nn.CallNeuron | src/nn.py:12-19 | The output node holds `NeuronValue` of the weights, bias and input data. Existing values are untouched, and new values have zero gradient. |
| Nn.LayerStep | src/nn.py:30 | One turn of the list comprehension calls the next neuron on the input. The output list then holds one more value, whose data is that neuron's output. The tape only grows. |
| Nn.CallLayer | src/nn.py:29-31 | The outcome (error, single value or list) and the data of the outputs are `LayerOut` of the input data. The tape only grows. |
| Nn.MlpStep | src/nn.py:53-54 | Calling layer `i` extends the agreement with `MlpOut` by one layer. A failure there is the failure of the whole call. |
| Nn.CallMlp | src/nn.py:52-55 | The outcome and output data are `MlpOut` of the input data. The tape only grows. |
| Viz.Build | src/viz.py:6-11 | `build(v)` adds exactly the nodes reachable from `v` to `nodes`, and to `edges` an edge `(child, w)` for every such `w` and every child of `w`. Because of the `v not in nodes` guard, each newly added node is expanded exactly once, even on shared subgraphs. |
| Viz.BuildChild | src/viz.py:9-11 | One turn of the loop over `_prev`: records the edge `(child, v)` and builds the child. Afterwards the child and everything it reaches are seen, with their edges. |
| Viz.Trace | src/viz.py:4-13 | `nodes` is exactly the set reachable from the root. `(c, w)` is an edge iff `w` is among the nodes and `c` is in its `_prev`, and every edge points from a smaller node that is also among the nodes. A leaf root gives itself and no edges. |

## Left out

- Floating point: `data` and `grad` are mathematical reals. Rounding is not modelled, so `15.8706` is exact.
- `**` with a non-natural exponent is not modelled. Float and negative exponents are left out; `Raise` takes a natural `k` or a `Value`.
- `Raise`: for `x ** 0`, the local slope is modelled as 0. Python computes `0 * x ** -1`, which raises `ZeroDivisionError` during `backward` when `x == 0.0`.
- `Raise` models the `assert isinstance(...)` as an error result. Running Python with assertions disabled is not modelled.
- Numbers on the left of an operator (`2 + a`) are not modelled. The class has no `__radd__`/`__rmul__`, so Python raises `TypeError`.
- Operands of any non-`Value` type are modelled as real numbers.
- Object identity is modelled by tape indices. Python hashes `Value` objects in the `_prev`, `visited` and `nodes` sets; the model uses the index.
- The iteration order of those sets is left open: the searches choose a child arbitrarily. Every property is proved for every order.
- `Engine.Tape.Backward`: the gradients are characterised by `Deriv` only under the reset discipline. Otherwise the contract states the sweep, over some topological order, that the gradients equal. Stale gradients on interior nodes are not summarised further.
- `Engine.Tape.SetData` does not recompute dependent nodes, as in the source. A graph whose leaves were updated is rebuilt by running the operators again, as `train_neuron` does.
- `Value.__repr__`, `print`, and `draw_dot` are left out. `draw_dot` (src/viz.py:15-49) formats a Graphviz string from `trace`'s result.
- `random.uniform(-1, 1)` is replaced by a list of draws passed to the constructors. The range of the draws is not constrained.
- The training loop of examples/train_demo.py (loss construction, 100 epochs, printing) is not modelled. Its network's parameter count and output shape, and the per-parameter `grad = 0.0`, are.
- `Nn.CallNeuron`, `Nn.CallLayer`, `Nn.CallMlp`: the contracts state the data of the outputs and that the tape only grows with zero gradients. They do not state the rules of the nodes created, which `Engine` states for each operator.
- `Nn.NewNeuron`, `Nn.NewLayer`, `Nn.NewMlp` take exactly as many draws as the network needs.
- Recursion depth: `build_topo` (src/core.py:61-66) and `build` (src/viz.py:6-11) are recursive. On a graph deeper than Python's recursion limit (about 1000 frames) they raise `RecursionError`. `Engine.Tape.Backward` and `Viz.Trace` always succeed in the model.
- `Value(data, _children)` called directly with a non-empty `_children` tuple (src/core.py:7-14) is not modelled. Such a node has children but the no-op `_backward` and an empty `_op`, and `Rule.Leaf` has no children. The model creates children only through the operators.
