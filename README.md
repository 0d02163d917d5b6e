# michigrad in Dafny

A model of michigrad and proofs about it. michigrad is a small scalar
reverse-mode automatic-differentiation engine (`michigrad/engine.py`) with a
neuron / layer / multi-layer-perceptron library on top of it
(`michigrad/nn.py`).

The model has five files:

- `wrappers.dfy` holds the `Result` type.
- `engine.dfy` (module `Engine`) models `Value` as an arena.
  - Class `Graph` holds every `Value` created so far: `nodes[i]` is the
    i-th one (its `data` and the operation that built it) and `grad[i]` is
    its `grad` field.
  - An operand is referred to by its index. A node's operands always have
    smaller indices, so the graph is acyclic by construction.
  - Each `_backward` closure is represented by the node's `Op` tag. `Fire`
    performs the `+=` statements that closure would run.
  - The operators are `Graph` methods. `BuildTopo` is `build_topo`.
    `Graph.Backward` is `backward()`.
- `backprop.dfy` (module `Backprop`) proves what `backward()` computes:
  - the local rules;
  - that the reverse topological order runs consumers first;
  - the chain-rule equations the final gradients satisfy;
  - that the result does not depend on the order in which the operand set
    is iterated.
- `gradients.dfy` (module `Gradients`) works out the gradients `backward()`
  leaves on small graphs: one per operation, fan-out, `x * x`, and repeated
  calls.
- `nn.dfy` (module `NN`) models `Neuron`, `Layer`, `MLP` and the activation
  layers.
  - A module holds the arena indices of its parameters.
  - Construction and calls are methods on a `Graph` that append nodes.
  - Pure functions state their results, and lemmas state their meaning.

Gradients and data are exact reals. Python's integer `0` in `grad = 0` and
`p.grad = 0` is the real `0.0`.

`MLP.__call__` (`michigrad/nn.py:213-215`) never rebinds `x`, so every
layer is applied to the network's original input and the last layer's
outputs are returned; layers do not feed one another. The model follows
this code, not the layer-after-layer reading its doc comment invites.

## Model

| member | source | states |
|---|---|---|
| Engine.OperandsAreChildren | michigrad/engine.py:40 | `_prev` has exactly the members of `_children`. |
| Backprop.SquareHasOneOperand | michigrad/engine.py:40 | `x * x` records the operand once: its operand set is `{x}`, of size 1. |
| Engine.Graph.constructor | michigrad/engine.py:32-43 | A new arena holds no `Value`s and no gradients. |
| Engine.Graph.Push | michigrad/engine.py:32-43 | A new `Value` is appended with grad 0. No existing node or gradient changes, and the arena stays well formed. |
| Engine.Graph.NewValue | michigrad/engine.py:32-43 | `Value(x)` appends a leaf with data `x` and grad 0 and returns its index. |
| Engine.Graph.Promote | michigrad/engine.py:55 | A number operand becomes a new leaf holding that number with grad 0. A `Value` operand is used as is and adds nothing. |
| Engine.Graph.Add | michigrad/engine.py:55-69 | `self + other` appends the promoted operand if needed, then a node whose data is the sum and whose operands are `self` and `other`. All new grads are 0. |
| Engine.Graph.Mul | michigrad/engine.py:81-96 | `self * other` appends the promoted operand if needed, then a node whose data is the product of the two operands' data. All new grads are 0. |
| Engine.Graph.Pow | michigrad/engine.py:107-121 | A non-numeric exponent fails the assertion and builds nothing. A zero base with a negative exponent raises and builds nothing. Otherwise one node `data ** k` is appended. The result is `Ok` exactly when the exponent is a number and the power is defined. |
| Engine.Power | michigrad/engine.py:110 | `data ** k` for an integer `k`. It is nonzero for a nonzero base, 0 for a zero base and positive `k`, and the base itself for `k = 1`. |
| Engine.PowSlope | michigrad/engine.py:117 | The power rule's factor `k * data ** (k - 1)`: 1 for `k = 1` and `2 * data` for `k = 2`. |
| Engine.ReluOf | michigrad/engine.py:129-133 | The ReLU value is `max(data, 0)`: at least 0, at least the input, and equal to one of them. |
| Engine.Graph.Relu | michigrad/engine.py:129-144 | Appends a node holding 0 for a negative input and the input otherwise. |
| Engine.Graph.Tanh | michigrad/engine.py:152-166 | Appends a tanh node whose data is the given hyperbolic tangent, with the input as its one operand. |
| Engine.Graph.Sigmoid | michigrad/engine.py:174-185 | Appends a sigmoid node whose data is the given logistic value, with the input as its one operand. |
| Engine.Graph.Exp | michigrad/engine.py:193-205 | Appends an exp node whose data is the given value of `e ** x`, with the input as its one operand. |
| Backprop.FireIsLocal | michigrad/engine.py:58-201 | Running a node's `+=` statements adds to every node exactly the local partial derivative times the consumer's current grad. A node that fills both operand slots gets both contributions. |
| Backprop.FireIsLocalAdd | michigrad/engine.py:64-65 | Add's rule adds `out.grad` to each operand (twice when they are the same node). |
| Backprop.FireIsLocalMul | michigrad/engine.py:91-92 | Mul's rule adds `other.data * out.grad` to self and `self.data * out.grad` to other. For `x * x` both land on `x`. |
| Backprop.FireIsLocalPow | michigrad/engine.py:117 | Pow's rule adds `k * data ** (k - 1) * out.grad` to the base. |
| Backprop.FireIsLocalOne | michigrad/engine.py:140-201 | The relu, tanh, sigmoid and exp rules add `(out.data > 0) * g`, `(1 - out²) * g`, `out (1 - out) * g` and `out * g` to the input. |
| Engine.Local | michigrad/engine.py:58-201 | What one unit of `out.grad` adds to node `v` under `out`'s closure: the partial derivative for each operand slot `v` fills (1 for `+`, the other factor for `*`, the power rule, `out.data > 0`, `1 - out²`, `out (1 - out)`, `out`). It is 0 for `out` itself and every node created after it. |
| Backprop.LocalOnlyOnOperands | michigrad/engine.py:58-201 | A rule passes nothing to a node that is not one of its operands. |
| Backprop.FireFrame | michigrad/engine.py:58-201 | A rule leaves the grad of every non-operand unchanged, its own node's included. |
| Engine.Fire | michigrad/engine.py:58-201 | `out._backward()`: the closure's `+=` statements in order, each reading `out.grad`. It keeps one grad per node. What each node receives is stated by `Backprop.FireIsLocal`, and what stays unchanged by `Backprop.FireFrame`. |
| Engine.RunRules | michigrad/engine.py:235-236 | The loop over `reversed(topo)`: each listed node's `_backward()` in turn, each reading the grads the earlier ones left. It keeps one grad per node. What the loop computes is stated by `RunRulesSnoc`, `Backprop.RunRulesSplit`, `Backprop.RunRulesFrame` and `Backprop.RunRulesChainRule`. |
| Engine.RunRulesSnoc | michigrad/engine.py:235-236 | Running the rules of `order` and then node `u`'s rule is running the rules of `order + [u]`. |
| Engine.BuildTopo | michigrad/engine.py:215-224 | `build_topo(v)` visits exactly what it had plus everything reachable from `v`. It lists the reachable nodes that were not yet listed, each once and after its operands, with `v` last when it was unvisited. Operands may be taken in any order. |
| Engine.Reach | michigrad/engine.py:220-224 | The nodes `build_topo(v)` reaches through `_prev`: `v` itself and, through each operand, everything that operand reaches. It always holds `v`. |
| Engine.ReachBelow | michigrad/engine.py:220-224 | Every node reachable from `v` was created no later than `v`. |
| Engine.ClosedHoldsReach | michigrad/engine.py:220-224 | A list that has every operand of its members listed earlier holds everything reachable from each member. |
| Engine.Graph.Backward | michigrad/engine.py:212-236 | The order `backward()` builds lists each node reachable from the root exactly once, operands first, root last. Node data is unchanged. The grads are those left by assigning 1 to the root and running every rule in reverse topological order. |
| Backprop.ReversedTopoOrder | michigrad/engine.py:235 | `reversed(topo)` starts at the root, holds exactly the reachable nodes once each, and runs every consumer before its operands. |
| Backprop.GradCompleteBeforeRuleFires | michigrad/engine.py:235-236 | When a node's rule fires, its grad already has its final value: the rules that run after it never add to it. |
| Backprop.RunRulesFrame | michigrad/engine.py:235-236 | Rules that do not consume a node leave its grad unchanged. |
| Backprop.RunRulesSplit | michigrad/engine.py:235-236 | Running an order's rules is running a prefix and then the rest. |
| Backprop.RunRulesChainRule | michigrad/engine.py:235-236 | After the rules of a consumers-first order run, every node's grad is its starting value plus, for every consumer in the order, the partial derivative times that consumer's final grad. |
| Backprop.BackwardChainRule | michigrad/engine.py:234-236 | The chain rule for `backward()`: every node ends with its previous grad (the root's replaced by 1) plus the sum over the reachable nodes of local derivative times final grad. |
| Backprop.BackwardOnLeaf | michigrad/engine.py:212-236 | `backward()` on a `Value` no operation built lists only that node, and the leaf's rule `lambda: None` does nothing: the node's grad becomes 1 and every other grad stays as it was. |
| Backprop.BackwardRootIsOne | michigrad/engine.py:234 | The root's grad ends at exactly 1, whatever it held before. |
| Backprop.BackwardSolvesChainRule | michigrad/engine.py:234-236 | The grads `backward()` leaves solve the chain-rule equations over the nodes reachable from the root. |
| Backprop.ChainRuleUnique | michigrad/engine.py:234-236 | The chain-rule equations have at most one solution: any two solutions are equal. That `backward()` gives one is `BackwardSolvesChainRule`. |
| Backprop.BackwardOrderIndependent | michigrad/engine.py:220-236 | Any two topological orders `build_topo` may produce, whatever the iteration order of `_prev`, leave the same grads. |
| Backprop.InflowInsert | michigrad/engine.py:234-236 | Adding a consumer to the set adds exactly its share to a node's inflow. |
| Backprop.OneFeeder | michigrad/engine.py:234-236 | A node consumed by one node only gets exactly that consumer's share. |
| Backprop.TwoFeeders | michigrad/engine.py:234-236 | A node consumed by two nodes gets both shares. |
| Gradients.AddGradients | michigrad/engine.py:64-65 | After `backward()` on `x + y`, each operand's grad grows by 1 and the root's grad is 1. |
| Gradients.MulGradients | michigrad/engine.py:91-92 | After `backward()` on `x * y`, `x.grad` grows by `y` and `y.grad` grows by `x`. |
| Gradients.SquareGradients | michigrad/engine.py:91-92 | After `backward()` on `x * x`, `x.grad` grows by `2x`. |
| Gradients.SquareAtThree | michigrad/engine.py:91-92 | `x * x` at `x = 3` from zero gradients gives `x.grad == 6`. |
| Gradients.PowGradients | michigrad/engine.py:117 | After `backward()` on `x ** k`, the base's grad grows by `k * x ** (k - 1)`. |
| Gradients.ReluGradients | michigrad/engine.py:140 | After `backward()` on `x.relu()`, the input's grad grows by 1 when `x > 0` and by 0 otherwise, including at `x = 0`. |
| Gradients.TanhGradients | michigrad/engine.py:163 | After `backward()` on `x.tanh()` with output `t`, the input's grad grows by `1 - t²`. |
| Gradients.SigmoidGradients | michigrad/engine.py:182 | After `backward()` on `x.sigmoid()` with output `s`, the input's grad grows by `s (1 - s)`. |
| Gradients.ExpGradients | michigrad/engine.py:201 | After `backward()` on `x.exp()` with output `e`, the input's grad grows by `e`. |
| Gradients.FanOutGraph | michigrad/engine.py:55-96 | The graph of `a * b + a * c` is well formed. |
| Gradients.FanOutGradients | michigrad/engine.py:234-236 | On `a * b + a * c`, `a` accumulates both shares, `b + c`, while `b` and `c` get `a`. |
| Gradients.FanOutShares | michigrad/engine.py:234-236 | The only chain-rule solution on the fan-out graph is `[b + c, a, a, 1, 1, 1]`. |
| Gradients.RepeatedBackwardAccumulates | michigrad/engine.py:234-236 | A second `backward()` without zeroing doubles the leaves' grads of `x * y`. |
| Gradients.StaleGradientPropagates | michigrad/engine.py:234-236 | Stale grads of inner nodes are not reset. On `relu(relu(2))` from grads all 1, the input ends at 3. |
| Gradients.NeuronGraph | michigrad/engine.py:55-96 | The graph of a one-input neuron `b + w * x` is well formed. |
| Gradients.NeuronGraphBuilt | michigrad/nn.py:56 | That graph is exactly what the neuron's weighted sum appends to the leaves `w`, `b` and `x`: the product node, then the sum node. |
| Gradients.NeuronShares | michigrad/engine.py:234-236 | On the neuron graph, from any starting grads, the only chain-rule solution that puts 1 on the output gives `w` and `x` the other's data times the product's grad, and adds 1 to the product's and bias's grads. |
| Gradients.NeuronGradients | michigrad/engine.py:234-236 | `backward()` on the neuron graph adds to the grads already present: 1 to the bias and the product, and `x` (resp. `w`) times the product's new grad to `w` (resp. `x`). The output's grad becomes 1. |
| Gradients.NeuronReset | michigrad/nn.py:17-18 | `zero_grad()` on that neuron sets the grads of `w` and `b` to 0 and keeps those of `x`, the product and the sum. |
| Gradients.ZeroGradKeepsInnerGradients | michigrad/nn.py:17-18 | `zero_grad()` between two `backward()` calls on the same output does not restore the first run. `w.grad` is `x` after the first run and `2 * x` after the second, because the product node keeps grad 1. |
| Engine.Graph.Neg | michigrad/engine.py:242 | `-self` is `self * -1`: a leaf `-1`, then a product node holding `-data`. |
| Engine.Graph.RAdd | michigrad/engine.py:248 | `other + self` builds exactly what `self + other` builds. |
| Engine.Graph.RMul | michigrad/engine.py:266 | `other * self` builds exactly what `self * other` builds. |
| Engine.Graph.Sub | michigrad/engine.py:254 | `self - other` is `self + (-other)`. The result holds the difference. A `Value` operand is negated through a `* -1` node, and a number is negated before promotion. |
| Engine.Graph.RSub | michigrad/engine.py:260 | `other - self` builds `-self`, then the leaf `other`, then their sum, which holds `other - data`. |
| Engine.Graph.TrueDiv | michigrad/engine.py:272 | `self / other` is `self * other ** -1`. It fails exactly when the divisor is 0, building nothing. Otherwise the result holds the quotient, and the appended nodes are the inverse (a power node or a leaf) and the product. |
| Engine.Graph.RTrueDiv | michigrad/engine.py:278 | `other / self` is `self ** -1 * other`. It fails exactly when `self` is 0. Otherwise it appends the power node, the leaf `other` and the product, which holds `other / data`. |
| Engine.DivideByInverse | michigrad/engine.py:272-278 | `x * y ** -1` equals `x / y` for nonzero `y`. |
| NN.Parameters | michigrad/nn.py:20-25 | `parameters()` of any module. `Module` and the activation layers, which inherit it, have none. A neuron has `len(w) + 1`, its bias last. |
| NN.NeuronParameters | michigrad/nn.py:64 | A neuron's parameter list has `len(w) + 1` entries, the bias last. |
| NN.NeuronParameterLayout | michigrad/nn.py:64 | A neuron's parameter list is the weights in order, then the bias. |
| NN.LayerParameters | michigrad/nn.py:175 | Every neuron's parameters, neuron after neuron. There are at least as many as there are neurons, one bias each. The exact count and position are `LayerParameterCount` and `LayerParameterOrder`. |
| NN.MLPParameters | michigrad/nn.py:224 | Every layer's parameters, layer after layer. There are at least as many as any single layer has neurons. The exact count is `MLPParameterCount`. |
| NN.NewNeuron | michigrad/nn.py:42-43 | `Neuron(nin)` appends one leaf per given weight, then a bias leaf with data 0, all with grad 0. Its weights and bias are those new nodes. |
| NN.NewNeuronParameters | michigrad/nn.py:42-43 | A new neuron's parameters are exactly the nodes it created, in creation order. |
| NN.NewLayer | michigrad/nn.py:149 | `Layer(nin, nout)` appends the nodes of its neurons in turn, with `nout` neurons of `nin` weights each. Its parameters are exactly the new nodes in creation order. |
| NN.LayerParameterCount | michigrad/nn.py:175 | A layer of `nout` neurons with `nin` weights each has `nout * (nin + 1)` parameters. |
| NN.LayerParameterOrder | michigrad/nn.py:175 | Parameter `j` of neuron `i` is entry `i * (nin + 1) + j` of the layer's list: neuron by neuron, weights then bias. |
| NN.NewLayers | michigrad/nn.py:198 | The comprehension over the sizes appends the nodes of each layer in turn, all with grad 0. Layer `i` has `sz[i + 1]` neurons of `sz[i]` weights, and the parameters are exactly the new nodes in creation order. |
| NN.NewMLP | michigrad/nn.py:197-198 | `MLP(nin, nouts)` has `len(nouts)` layers. Layer `i` has `sz[i + 1]` neurons of `sz[i]` weights, with `sz = [nin] + nouts`. Its parameters are exactly the new nodes, layer by layer, and there are `ParameterCount(nin, nouts)` of them. |
| NN.MLPParameterCount | michigrad/nn.py:224 | An MLP of that shape has `Σ nouts[i] * (sz[i] + 1)` parameters. |
| NN.LayerSizesChain | michigrad/nn.py:197-198 | Consecutive layers fit: each neuron of layer `i + 1` has as many weights as layer `i` has neurons. |
| NN.ZeroGrad | michigrad/nn.py:17-18 | `zero_grad()` sets the grad of every parameter to 0 and leaves every other grad and every node unchanged. On `Module` itself and on the activation layers it changes no grad at all. |
| NN.SumFromIsDot | michigrad/nn.py:56 | Python's `sum(products, start)` folds left from the start. It equals the start plus the dot product. |
| NN.DotTruncates | michigrad/nn.py:56 | `zip(w, x)` stops at the shorter list: only the first `min(len(w), len(x))` pairs count. |
| NN.MulAdd | michigrad/nn.py:56 | One step of the sum appends a promoted leaf when the input is a number, then a product node and a running-sum node. The new sum holds `acc + wi * xi`. |
| NN.SumProducts | michigrad/nn.py:56 | The arena after the generator and `sum`: for each pair `zip` forms, a promoted leaf when the input is a number, then a product node and a running-sum node are appended. The arena only grows. The result is an existing node, and a new one when a pair is formed. |
| NN.MulAddCall | michigrad/nn.py:56 | One step of the sum on the graph appends exactly the nodes of `MulAdd`: a promoted leaf when the input is a number, then a product node and a running-sum node, all with grad 0. It returns the new running-sum node. |
| NN.SumCall | michigrad/nn.py:56 | The generator and `sum` on the graph: the arena and result are exactly those of `SumProducts`, and every new node has grad 0. |
| NN.SumProductsValue | michigrad/nn.py:56 | The running sum holds the left fold of the products onto the bias's data. |
| NN.NeuronComputes | michigrad/nn.py:56 | A neuron's output holds `b + Σ wi * xi` over the truncated zip, with no activation. When zip forms no pair, the output is the bias node itself and nothing is built. |
| NN.NeuronCall | michigrad/nn.py:56 | `n(x)` on the graph appends exactly the nodes of the sum, all with grad 0. It returns the last running-sum node, or the bias when `zip` forms no pair. |
| NN.Unwrap | michigrad/nn.py:165-166 | The unwrapping of a layer's outputs keeps them all, and returns a single `Value` exactly when there is one. |
| NN.LayerRun | michigrad/nn.py:165 | The comprehension over the neurons, each called on the same `x`: one output per neuron, each an existing node, and the arena only grows. |
| NN.LayerComputes | michigrad/nn.py:165 | A layer has one output per neuron, in neuron order. Output `k` holds what neuron `k` computes on the layer's inputs. |
| NN.NeuronsCall | michigrad/nn.py:165 | The comprehension over the neurons on the graph leaves exactly the arena and outputs of `LayerRun`, and every new node has grad 0. |
| NN.LayerCall | michigrad/nn.py:165-166 | `Layer.__call__` runs each neuron on the same inputs, appending their nodes with grad 0, and returns the outputs unwrapped. |
| NN.Activations | michigrad/nn.py:88-126 | The comprehension of an activation layer appends one node per input, and node `k` has input `k` as its one operand. |
| NN.ActivationOutputs | michigrad/nn.py:88-126 | Output `k` of an activation layer has input `k` as its one operand. ReLU's output holds the input clamped below at 0, and the others hold the value supplied for them. |
| NN.ActivateAll | michigrad/nn.py:88-126 | The comprehension of an activation layer on the graph appends exactly the nodes of `Activations`, with grad 0. Its outputs are those new nodes, in input order. |
| NN.ActivationCall | michigrad/nn.py:88-127 | The `ReLU`, `Tanh` and `Sigmoid` layers append one node per input, in input order, with grad 0. They return the new nodes, a single one unwrapped. |
| NN.MLPRunFrom | michigrad/nn.py:213-215 | The loop from a given `z` on: with no layer left, nothing is built and `z` is unchanged. Otherwise `z` is rebound, so the result is a layer's output. The arena only grows. |
| NN.MLPRun | michigrad/nn.py:213-215 | `MLP.__call__`: the result is an error exactly when there are no layers, and then nothing is built. The arena only grows. |
| NN.MLPComputes | michigrad/nn.py:213-215 | `MLP.__call__` fails, building nothing, exactly when there are no layers. Otherwise it returns one output per neuron of the last layer, and output `k` holds what that neuron computes on the original input `x`. |
| NN.MLPCall | michigrad/nn.py:213-215 | The loop over the layers leaves exactly the arena and the `z` of `MLPRun`, and every new node has grad 0. |

## Left out

- IEEE-754 floating point: rounding, infinities, NaN and overflow. `data`
  and `grad` are exact reals.
- The forward values of `tanh`, `sigmoid` and `exp` (`math.e ** (2x)`,
  `math.exp`). `Graph.Tanh`, `Graph.Sigmoid`, `Graph.Exp` and the
  activation layers take them as parameters. Their backward rules read
  only `out.data`, so those rules are modelled exactly.
- The `OverflowError` that `math.e ** (2 * x)` or `math.exp` may raise for
  large inputs.
- Non-integer exponents for `**`. The power is defined on integer
  exponents only. A `Value` exponent is the assertion failure.
- Engine.Graph.Pow: with exponent 0 on a zero base, Python's rule would
  evaluate `0.0 ** -1` and raise during `backward()`. The model uses the
  factor 0, as for any base.
- Engine.PowSlope: at `k = 0` on a zero base it returns 0, where the
  power rule raises `ZeroDivisionError` on `0.0 ** -1`. Backward has no
  error path in the model.
- Backprop.FireIsLocalPow: inherits that factor. For `k = 0` on a zero
  base it adds 0 to the base's grad, where the source's rule raises.
- Gradients.PowGradients: its requires admits `x = 0` with `k = 0`. There
  it states a grad growth of 0, where the source's `backward()` raises.
- Random weight initialisation (`random.uniform(-1, 1)`). The weights of
  `Neuron`, `Layer` and `MLP` are given as inputs.
- `name`, the `_op` labels and every `__repr__`: they only serve printing
  and graph drawing.
- Python object identity beyond the arena. Operands are indices, and a
  number operand is `Lit` rather than a Python `int`/`float`.
- Engine.Graph.Backward: always succeeds. `build_topo` recurses once per
  level of the graph, so CPython raises `RecursionError` on a deep graph,
  such as a neuron's running sum over about a thousand inputs. The model has
  no recursion limit.
- Engine.Operand: an operand is a `Value` or a real number. Python's `+`
  and `*` wrap any other object too. Then they either raise `TypeError`, or
  build a node whose data is not a real number: `Value(3) * "ab"` holds the
  string `"ababab"`, and `Value(1) + 2j` holds a complex number whose
  `backward()` runs. `Lit(x: real)` cannot express such an operand.
- NN.ZeroGrad: resets only the parameters' grads, not those of the nodes
  built by a forward pass. A second `backward()` on the same output after
  `zero_grad()` matches the first only when every grad reachable from the
  output is 0 again, as after a fresh forward pass.
  `Gradients.ZeroGradKeepsInnerGradients` shows `w.grad` going from `x` to
  `2 * x` on a neuron `b + w * x`.
- Engine.Graph.Backward: its result is the order it used, returned so that
  its contract can name it. Python's `backward()` returns `None`.
- Floating-point summation order in `Neuron.__call__`: the fold is exact
  over the reals. Its left-to-right order is still stated by `SumFrom`.
- The comprehensions in `Layer.__init__`, `Layer.__call__`, the activation
  layers and `MLP.__init__` are written as recursive methods. They append
  the same nodes in the same order.
