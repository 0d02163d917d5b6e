/**
 * The network layer of michigrad (michigrad/nn.py): neurons, layers and
 * multi-layer perceptrons over the `Value` arena of `Engine`. A module
 * holds the indices of its parameter nodes; calling a module appends the
 * nodes of its forward computation to the arena.
 */
module NN {
  import opened Wrappers
  import opened Engine

  /** `Neuron`: its weights `w` and its bias `b`, as arena indices. */
  datatype Neuron = Neuron(w: seq<nat>, b: nat)

  datatype Layer = Layer(neurons: seq<Neuron>)

  datatype MLP = MLP(layers: seq<Layer>)

  /** Every kind of `Module`, for `parameters()` and `zero_grad()`. */
  datatype Module =
    | Base
    | Unit(neuron: Neuron)
    | ReluLayer
    | TanhLayer
    | SigmoidLayer
    | Dense(layer: Layer)
    | Net(mlp: MLP)

  /** What a layer returns: one `Value` on its own, or a list of any other length. */
  datatype Output = Single(v: nat) | Multiple(vs: seq<nat>)

  datatype NNError = NoLayers  // `MLP.__call__` with no layers returns an unbound `z`

  /** The indices `lo`, `lo + 1`, ..., `lo + n - 1`. */
  function Range(lo: nat, n: nat): (r: seq<nat>)
    ensures |r| == n && forall i :: 0 <= i < n ==> r[i] == lo + i
  {
    seq(n, i => lo + i)
  }

  lemma {:induction false} RangeSplit(lo: nat, k: nat, m: nat)
    ensures Range(lo, k) + Range(lo + k, m) == Range(lo, k + m)
  {
    var s := Range(lo, k) + Range(lo + k, m);
    forall i | 0 <= i < k + m ensures s[i] == lo + i {
      if i >= k {
        assert s[i] == Range(lo + k, m)[i - k];
      }
    }
  }

  /** `RangeSplit` with every length named, so callers can pass the terms they hold. */
  lemma {:induction false} RangeJoin(lo: nat, k: nat, mid: nat, m: nat, n: nat)
    requires mid == lo + k && n == k + m
    ensures Range(lo, k) + Range(mid, m) == Range(lo, n)
  {
    RangeSplit(lo, k, m);
  }

  lemma {:induction false} ZerosSplit(a: nat, b: nat)
    ensures Zeros(a) + Zeros(b) == Zeros(a + b)
  {
    assert forall i :: 0 <= i < a + b ==> (Zeros(a) + Zeros(b))[i] == 0.0;
  }

  /** Two appends in a row append the two pieces together. */
  lemma {:induction false} Grow<T>(s0: seq<T>, s1: seq<T>, s2: seq<T>, a: seq<T>, b: seq<T>)
    requires s1 == s0 + a && s2 == s1 + b
    ensures s2 == s0 + (a + b)
  {
    assert s2 == s0 + a + b;
  }

  /** Two calls that each append zero gradients append them together. */
  lemma {:induction false} ZerosGrow(g0: seq<real>, g1: seq<real>, g2: seq<real>, a: nat, b: nat, c: nat)
    requires g1 == g0 + Zeros(a) && g2 == g1 + Zeros(b) && c == a + b
    ensures g2 == g0 + Zeros(c)
  {
    ZerosSplit(a, b);
    Grow(g0, g1, g2, Zeros(a), Zeros(b));
  }

  // ---------------------------------------------------------------- parameters

  /** `Neuron.parameters()`: the weights, then the bias. */
  function NeuronParameters(n: Neuron): (r: seq<nat>)
    ensures |r| == |n.w| + 1 && r[|n.w|] == n.b
  {
    n.w + [n.b]
  }

  /** `Layer.parameters()`: every neuron's parameters, neuron after neuron. */
  function LayerParameters(neurons: seq<Neuron>): (r: seq<nat>)
    ensures |r| >= |neurons|
  {
    if neurons == [] then [] else NeuronParameters(neurons[0]) + LayerParameters(neurons[1..])
  }

  /** `MLP.parameters()`: every layer's parameters, layer after layer. */
  function MLPParameters(layers: seq<Layer>): (r: seq<nat>)
    ensures forall i :: 0 <= i < |layers| ==> |r| >= |layers[i].neurons|
  {
    if layers == [] then [] else LayerParameters(layers[0].neurons) + MLPParameters(layers[1..])
  }

  /**
   * `parameters()` of any module. The base class and the activation layers
   * have none; a neuron has its weights and then its bias.
   */
  function Parameters(m: Module): (r: seq<nat>)
    ensures m.Base? || IsActivation(m) ==> r == []
    ensures m.Unit? ==> |r| == |m.neuron.w| + 1 && r[|r| - 1] == m.neuron.b
  {
    match m
    case Base => []
    case Unit(n) => NeuronParameters(n)
    case ReluLayer => []
    case TanhLayer => []
    case SigmoidLayer => []
    case Dense(l) => LayerParameters(l.neurons)
    case Net(p) => MLPParameters(p.layers)
  }

  /** The layer sizes of `MLP.__init__`: the input size followed by every layer's output size. */
  function Sizes(nin: nat, nouts: seq<nat>): (sz: seq<nat>)
    ensures |sz| == |nouts| + 1 && sz[0] == nin && sz[1..] == nouts
  {
    [nin] + nouts
  }

  /** Layer `i` has `nouts[i]` neurons of `sz[i]` weights each. */
  predicate LayerShape(l: Layer, nin: nat, nout: nat)
  {
    |l.neurons| == nout && forall i :: 0 <= i < nout ==> |l.neurons[i].w| == nin
  }

  predicate MLPShape(m: MLP, nin: nat, nouts: seq<nat>)
  {
    |m.layers| == |nouts| &&
    forall i :: 0 <= i < |nouts| ==> LayerShape(m.layers[i], Sizes(nin, nouts)[i], Sizes(nin, nouts)[i + 1])
  }

  /** The number of parameters of `MLP(nin, nouts)`: `nout * (nin + 1)` per layer. */
  function ParameterCount(nin: nat, nouts: seq<nat>): nat
    decreases |nouts|
  {
    if nouts == [] then 0 else nouts[0] * (nin + 1) + ParameterCount(nouts[0], nouts[1..])
  }

  /** A neuron with `nin` weights has `nin + 1` parameters, the bias last. */
  lemma {:induction false} NeuronParameterLayout(n: Neuron)
    ensures |NeuronParameters(n)| == |n.w| + 1
    ensures NeuronParameters(n)[..|n.w|] == n.w && NeuronParameters(n)[|n.w|] == n.b
  {
  }

  /** A layer of `nout` neurons with `nin` weights each has `nout * (nin + 1)` parameters. */
  lemma {:induction false} LayerParameterCount(l: Layer, nin: nat, nout: nat)
    requires LayerShape(l, nin, nout)
    ensures |LayerParameters(l.neurons)| == nout * (nin + 1)
    decreases nout
  {
    if nout > 0 {
      ShapeTail(l, nin, nout);
      LayerParameterCount(Layer(l.neurons[1..]), nin, nout - 1);
    }
  }

  /** The neurons after the first still have `nin` weights each. */
  lemma {:induction false} ShapeTail(l: Layer, nin: nat, nout: nat)
    requires LayerShape(l, nin, nout) && nout > 0
    ensures LayerShape(Layer(l.neurons[1..]), nin, nout - 1)
  {
    var rest := Layer(l.neurons[1..]);
    forall i | 0 <= i < nout - 1 ensures |rest.neurons[i].w| == nin {
      assert rest.neurons[i] == l.neurons[i + 1];
    }
  }

  /** Parameter `j` of neuron `i` sits at position `i * (nin + 1) + j` of the layer's list. */
  lemma {:induction false} LayerParameterOrder(l: Layer, nin: nat, nout: nat, i: nat, j: nat)
    requires LayerShape(l, nin, nout) && i < nout && j <= nin
    ensures i * (nin + 1) + j < |LayerParameters(l.neurons)| &&
            LayerParameters(l.neurons)[i * (nin + 1) + j] == NeuronParameters(l.neurons[i])[j]
    decreases i
  {
    var first := NeuronParameters(l.neurons[0]);
    var rest := Layer(l.neurons[1..]);
    assert LayerParameters(l.neurons) == first + LayerParameters(rest.neurons);
    assert |first| == nin + 1;
    if i > 0 {
      ShapeTail(l, nin, nout);
      LayerParameterOrder(rest, nin, nout - 1, i - 1, j);
      assert rest.neurons[i - 1] == l.neurons[i];
      assert i * (nin + 1) + j == (nin + 1) + ((i - 1) * (nin + 1) + j);
    }
  }

  /** `MLP(nin, nouts).parameters()` has `ParameterCount(nin, nouts)` entries. */
  lemma {:induction false} MLPParameterCount(m: MLP, nin: nat, nouts: seq<nat>)
    requires MLPShape(m, nin, nouts)
    ensures |MLPParameters(m.layers)| == ParameterCount(nin, nouts)
    decreases |nouts|
  {
    if nouts != [] {
      var sz := Sizes(nin, nouts);
      LayerParameterCount(m.layers[0], nin, nouts[0]);
      var rest := MLP(m.layers[1..]);
      assert MLPShape(rest, nouts[0], nouts[1..]) by {
        forall i | 0 <= i < |nouts| - 1
          ensures LayerShape(rest.layers[i], Sizes(nouts[0], nouts[1..])[i], Sizes(nouts[0], nouts[1..])[i + 1])
        {
          assert rest.layers[i] == m.layers[i + 1];
          assert Sizes(nouts[0], nouts[1..])[i] == sz[i + 1];
          assert Sizes(nouts[0], nouts[1..])[i + 1] == sz[i + 2];
        }
      }
      MLPParameterCount(rest, nouts[0], nouts[1..]);
    }
  }

  /** Consecutive layers fit: layer `i + 1` takes as many inputs as layer `i` has neurons. */
  lemma {:induction false} LayerSizesChain(m: MLP, nin: nat, nouts: seq<nat>, i: nat)
    requires MLPShape(m, nin, nouts) && i + 1 < |m.layers|
    ensures var next := m.layers[i + 1].neurons;
            forall k :: 0 <= k < |next| ==> |next[k].w| == |m.layers[i].neurons|
  {
    assert LayerShape(m.layers[i], Sizes(nin, nouts)[i], Sizes(nin, nouts)[i + 1]);
    assert LayerShape(m.layers[i + 1], Sizes(nin, nouts)[i + 1], Sizes(nin, nouts)[i + 2]);
  }

  // ------------------------------------------------------------ construction

  /** The leaves `Value(x)` for the numbers `xs`, in order. */
  function Leaves(xs: seq<real>): (r: seq<Node>)
    ensures |r| == |xs|
  {
    seq(|xs|, i requires 0 <= i < |xs| => Node(xs[i], Leaf))
  }

  /** The nodes `Neuron(nin)` creates: its weights, drawn as `ws`, then the bias `Value(0)`. */
  function NeuronInit(ws: seq<real>): seq<Node>
  {
    Leaves(ws) + [Node(0.0, Leaf)]
  }

  /** The nodes `Layer(nin, nout)` creates: each neuron's in turn. */
  function LayerInit(ws: seq<seq<real>>): seq<Node>
  {
    if ws == [] then [] else NeuronInit(ws[0]) + LayerInit(ws[1..])
  }

  /** The nodes `MLP(nin, nouts)` creates: each layer's in turn. */
  function MLPInit(ws: seq<seq<seq<real>>>): seq<Node>
  {
    if ws == [] then [] else LayerInit(ws[0]) + MLPInit(ws[1..])
  }

  /**
   * `Neuron(nin)`, with the weights `random.uniform(-1, 1)` would draw given
   * as `ws`: `nin` weight leaves, then a bias leaf with data 0.
   */
  method NewNeuron(g: Graph, ws: seq<real>) returns (n: Neuron)
    requires g.Valid()
    modifies g
    ensures g.Valid()
    ensures g.nodes == old(g.nodes) + NeuronInit(ws) && g.grad == old(g.grad) + Zeros(|ws| + 1)
    ensures n == Neuron(Range(|old(g.nodes)|, |ws|), |old(g.nodes)| + |ws|)
  {
    var w: seq<nat> := [];
    var i := 0;
    while i < |ws|
      invariant 0 <= i <= |ws| && g.Valid()
      invariant g.nodes == old(g.nodes) + Leaves(ws[..i]) && g.grad == old(g.grad) + Zeros(i)
      invariant w == Range(|old(g.nodes)|, i)
    {
      var v := g.NewValue(ws[i]);
      assert Leaves(ws[..i + 1]) == Leaves(ws[..i]) + [Node(ws[i], Leaf)];
      assert Zeros(i + 1) == Zeros(i) + [0.0];
      w := w + [v];
      i := i + 1;
    }
    assert ws[..i] == ws;
    var b := g.NewValue(0.0);
    assert Zeros(i + 1) == Zeros(i) + [0.0];
    n := Neuron(w, b);
  }

  /** A new neuron's parameters are exactly the nodes it created, in creation order. */
  lemma {:induction false} NewNeuronParameters(lo: nat, nin: nat)
    ensures NeuronParameters(Neuron(Range(lo, nin), lo + nin)) == Range(lo, nin + 1)
  {
    RangeSplit(lo, nin, 1);
  }

  /** The first neuron's nodes and parameters come before those of the rest of the layer. */
  lemma {:induction false} LayerCons(before: seq<Node>, mid: seq<Node>, after: seq<Node>,
                                     gb: seq<real>, gm: seq<real>, ga: seq<real>,
                                     ws: seq<seq<real>>, nin: nat, n: Neuron, rest: seq<Neuron>)
    requires |ws| > 0 && |ws[0]| == nin
    requires mid == before + NeuronInit(ws[0]) && gm == gb + Zeros(nin + 1)
    requires n == Neuron(Range(|before|, nin), |before| + nin)
    requires after == mid + LayerInit(ws[1..]) && ga == gm + Zeros(|after| - |mid|)
    requires LayerShape(Layer(rest), nin, |ws| - 1)
    requires LayerParameters(rest) == Range(|mid|, |after| - |mid|)
    ensures after == before + LayerInit(ws) && |before| <= |after|
    ensures ga == gb + Zeros(|after| - |before|)
    ensures LayerShape(Layer([n] + rest), nin, |ws|)
    ensures LayerParameters([n] + rest) == Range(|before|, |after| - |before|)
  {
    Grow(before, mid, after, NeuronInit(ws[0]), LayerInit(ws[1..]));
    ZerosGrow(gb, gm, ga, nin + 1, |after| - |mid|, |after| - |before|);
    assert ([n] + rest)[1..] == rest;
    NewNeuronParameters(|before|, nin);
    RangeJoin(|before|, nin + 1, |mid|, |after| - |mid|, |after| - |before|);
    assert LayerShape(Layer([n] + rest), nin, |ws|) by {
      forall i | 0 <= i < |ws| ensures |([n] + rest)[i].w| == nin {
        if i > 0 {
          assert ([n] + rest)[i] == rest[i - 1];
        }
      }
    }
  }

  /** `Layer(nin, nout)`: `nout` new neurons, the weights of neuron `i` given as `ws[i]`. */
  method NewLayer(g: Graph, nin: nat, ws: seq<seq<real>>) returns (l: Layer)
    requires g.Valid() && forall i :: 0 <= i < |ws| ==> |ws[i]| == nin
    modifies g
    ensures g.Valid() && g.nodes == old(g.nodes) + LayerInit(ws) && |old(g.nodes)| <= |g.nodes|
    ensures g.grad == old(g.grad) + Zeros(|g.nodes| - |old(g.nodes)|)
    ensures LayerShape(l, nin, |ws|)
    ensures LayerParameters(l.neurons) == Range(|old(g.nodes)|, |g.nodes| - |old(g.nodes)|)
    decreases |ws|
  {
    if ws == [] {
      l := Layer([]);
      assert g.grad == old(g.grad) + Zeros(0);
    } else {
      var n := NewNeuron(g, ws[0]);
      ghost var mid, gm := g.nodes, g.grad;
      var rest := NewLayer(g, nin, ws[1..]);
      LayerCons(old(g.nodes), mid, g.nodes, old(g.grad), gm, g.grad, ws, nin, n, rest.neurons);
      l := Layer([n] + rest.neurons);
    }
  }

  /** The first layer's nodes and parameters come before those of the later layers. */
  lemma {:induction false} MLPCons(before: seq<Node>, mid: seq<Node>, after: seq<Node>,
                                   gb: seq<real>, gm: seq<real>, ga: seq<real>,
                                   ws: seq<seq<seq<real>>>, l: Layer, rest: seq<Layer>)
    requires |ws| > 0
    requires mid == before + LayerInit(ws[0]) && gm == gb + Zeros(|mid| - |before|)
    requires LayerParameters(l.neurons) == Range(|before|, |mid| - |before|)
    requires after == mid + MLPInit(ws[1..]) && ga == gm + Zeros(|after| - |mid|)
    requires MLPParameters(rest) == Range(|mid|, |after| - |mid|)
    ensures after == before + MLPInit(ws) && |before| <= |after|
    ensures ga == gb + Zeros(|after| - |before|)
    ensures MLPParameters([l] + rest) == Range(|before|, |after| - |before|)
  {
    Grow(before, mid, after, LayerInit(ws[0]), MLPInit(ws[1..]));
    ZerosGrow(gb, gm, ga, |mid| - |before|, |after| - |mid|, |after| - |before|);
    assert ([l] + rest)[1..] == rest;
    RangeJoin(|before|, |mid| - |before|, |mid|, |after| - |mid|, |after| - |before|);
  }

  /**
   * What `MLP.__init__` asks of the drawn weights: layer `i` has `sz[i + 1]`
   * neurons of `sz[i]` weights each.
   */
  predicate Drawn(sz: seq<nat>, ws: seq<seq<seq<real>>>)
  {
    |sz| == |ws| + 1 &&
    (forall i :: 0 <= i < |ws| ==> |ws[i]| == sz[i + 1]) &&
    forall i, j :: 0 <= i < |ws| && 0 <= j < |ws[i]| ==> |ws[i][j]| == sz[i]
  }

  /** Consecutive layers fit: every layer's shape is given by the sizes `sz`. */
  predicate Shaped(layers: seq<Layer>, sz: seq<nat>)
  {
    |sz| == |layers| + 1 && forall k :: 0 <= k < |layers| ==> LayerShape(layers[k], sz[k], sz[k + 1])
  }

  /** The weights of the later layers fit the later sizes. */
  lemma {:induction false} DrawnTail(sz: seq<nat>, ws: seq<seq<seq<real>>>)
    requires Drawn(sz, ws) && |ws| > 0
    ensures Drawn(sz[1..], ws[1..]) && forall j :: 0 <= j < |ws[0]| ==> |ws[0][j]| == sz[0]
  {
    assert Drawn(sz[1..], ws[1..]) by {
      forall i, j | 0 <= i < |ws| - 1 && 0 <= j < |ws[1..][i]| ensures |ws[1..][i][j]| == sz[1..][i] {
        assert ws[1..][i] == ws[i + 1];
      }
    }
  }

  /** A first layer of the first shape in front of layers of the later shapes. */
  lemma {:induction false} ShapedCons(sz: seq<nat>, l: Layer, rest: seq<Layer>)
    requires |sz| >= 2 && LayerShape(l, sz[0], sz[1]) && Shaped(rest, sz[1..])
    ensures Shaped([l] + rest, sz)
  {
    forall k | 0 <= k < |rest| + 1 ensures LayerShape(([l] + rest)[k], sz[k], sz[k + 1]) {
      if k > 0 {
        assert ([l] + rest)[k] == rest[k - 1];
        assert sz[1..][k - 1] == sz[k] && sz[1..][k] == sz[k + 1];
      }
    }
  }

  /** The layers of `MLP.__init__` from the sizes `sz` on, the weights of layer `i` given as `ws[i]`. */
  method NewLayers(g: Graph, sz: seq<nat>, ws: seq<seq<seq<real>>>) returns (layers: seq<Layer>)
    requires g.Valid() && Drawn(sz, ws)
    modifies g
    ensures g.Valid() && g.nodes == old(g.nodes) + MLPInit(ws) && |old(g.nodes)| <= |g.nodes|
    ensures g.grad == old(g.grad) + Zeros(|g.nodes| - |old(g.nodes)|)
    ensures Shaped(layers, sz)
    ensures MLPParameters(layers) == Range(|old(g.nodes)|, |g.nodes| - |old(g.nodes)|)
    decreases |ws|
  {
    if ws == [] {
      layers := [];
      assert g.grad == old(g.grad) + Zeros(0);
    } else {
      DrawnTail(sz, ws);
      var l := NewLayer(g, sz[0], ws[0]);
      ghost var mid, gm := g.nodes, g.grad;
      var rest := NewLayers(g, sz[1..], ws[1..]);
      MLPCons(old(g.nodes), mid, g.nodes, old(g.grad), gm, g.grad, ws, l, rest);
      ShapedCons(sz, l, rest);
      layers := [l] + rest;
    }
  }

  /**
   * `MLP(nin, nouts)`: layer `i` is `Layer(sz[i], sz[i + 1])` with
   * `sz = [nin] + nouts`, its weights given as `ws[i]`.
   */
  method NewMLP(g: Graph, nin: nat, nouts: seq<nat>, ws: seq<seq<seq<real>>>) returns (m: MLP)
    requires g.Valid() && Drawn(Sizes(nin, nouts), ws)
    modifies g
    ensures g.Valid() && g.nodes == old(g.nodes) + MLPInit(ws) && |old(g.nodes)| <= |g.nodes|
    ensures g.grad == old(g.grad) + Zeros(|g.nodes| - |old(g.nodes)|)
    ensures MLPShape(m, nin, nouts)
    ensures MLPParameters(m.layers) == Range(|old(g.nodes)|, |g.nodes| - |old(g.nodes)|)
    ensures |g.nodes| - |old(g.nodes)| == ParameterCount(nin, nouts)
  {
    var layers := NewLayers(g, Sizes(nin, nouts), ws);
    m := MLP(layers);
    MLPParameterCount(m, nin, nouts);
  }

  // --------------------------------------------------------------- zero_grad

  /** The gradients with those at the indices `ps` set to 0. */
  function ZeroedAt(grad: seq<real>, ps: seq<nat>): (r: seq<real>)
  {
    seq(|grad|, i requires 0 <= i < |grad| => if i in ps then 0.0 else grad[i])
  }

  /**
   * `Module.zero_grad()`: every parameter's gradient becomes 0; no other
   * gradient and no node changes.
   */
  method ZeroGrad(g: Graph, m: Module)
    requires g.Valid() && InArena(g.nodes, Parameters(m))
    modifies g
    ensures g.Valid() && g.nodes == old(g.nodes) && |g.grad| == |old(g.grad)|
    ensures forall i :: 0 <= i < |g.grad| ==>
              g.grad[i] == if i in Parameters(m) then 0.0 else old(g.grad)[i]
    ensures g.grad == ZeroedAt(old(g.grad), Parameters(m))
    ensures m.Base? || IsActivation(m) ==> g.grad == old(g.grad)
  {
    var ps := Parameters(m);
    var k := 0;
    while k < |ps|
      invariant 0 <= k <= |ps| && g.Valid()
      invariant g.nodes == old(g.nodes) && |g.grad| == |old(g.grad)|
      invariant forall i :: 0 <= i < |g.grad| ==>
                  g.grad[i] == if i in ps[..k] then 0.0 else old(g.grad)[i]
    {
      g.grad := g.grad[ps[k] := 0.0];
      assert ps[..k + 1] == ps[..k] + [ps[k]];
      k := k + 1;
    }
    assert ps[..k] == ps;
  }

  // ----------------------------------------------------------------- forward

  predicate NeuronIn(nodes: seq<Node>, n: Neuron)
  {
    InArena(nodes, n.w) && n.b < |nodes|
  }

  predicate LayerIn(nodes: seq<Node>, neurons: seq<Neuron>)
  {
    forall i :: 0 <= i < |neurons| ==> NeuronIn(nodes, neurons[i])
  }

  predicate MLPIn(nodes: seq<Node>, layers: seq<Layer>)
  {
    forall i :: 0 <= i < |layers| ==> LayerIn(nodes, layers[i].neurons)
  }

  /** The inputs of a call: nodes of the arena, or plain numbers. */
  predicate InputsOk(nodes: seq<Node>, x: seq<Operand>)
  {
    forall i :: 0 <= i < |x| ==> OperandOk(nodes, x[i])
  }

  /** The data of the nodes `w`. */
  function Data(nodes: seq<Node>, w: seq<nat>): (r: seq<real>)
    requires InArena(nodes, w)
    ensures |r| == |w|
  {
    seq(|w|, i requires 0 <= i < |w| => nodes[w[i]].data)
  }

  /** The numbers the inputs `x` stand for. */
  function Values(nodes: seq<Node>, x: seq<Operand>): (r: seq<real>)
    requires InputsOk(nodes, x)
    ensures |r| == |x|
  {
    seq(|x|, i requires 0 <= i < |x| => OperandValue(nodes, x[i]))
  }

  /** `w₀x₀ + w₁x₁ + …` over the pairs `zip(w, x)` forms: the shorter list decides. */
  function Dot(w: seq<real>, x: seq<real>): real
    decreases |w|
  {
    if |w| == 0 || |x| == 0 then 0.0 else w[0] * x[0] + Dot(w[1..], x[1..])
  }

  /** `sum(products, start)`: the products added to `start` one at a time, left to right. */
  function SumFrom(start: real, w: seq<real>, x: seq<real>): real
    decreases |w|
  {
    if |w| == 0 || |x| == 0 then start else SumFrom(start + w[0] * x[0], w[1..], x[1..])
  }

  /** The left-to-right running sum is the start plus the dot product. */
  lemma {:induction false} SumFromIsDot(start: real, w: seq<real>, x: seq<real>)
    ensures SumFrom(start, w, x) == start + Dot(w, x)
    decreases |w|
  {
    if |w| > 0 && |x| > 0 {
      SumFromIsDot(start + w[0] * x[0], w[1..], x[1..]);
    }
  }

  /** `zip` stops at the shorter list: only the first `min(|w|, |x|)` pairs count. */
  lemma {:induction false} DotTruncates(w: seq<real>, x: seq<real>, k: nat)
    requires k == if |w| < |x| then |w| else |x|
    ensures Dot(w, x) == Dot(w[..k], x[..k])
    decreases |w|
  {
    if k > 0 {
      assert w[..k][1..] == w[1..][..k - 1] && x[..k][1..] == x[1..][..k - 1];
      DotTruncates(w[1..], x[1..], k - 1);
    }
  }

  /** The arena after `acc + wi * xi`: the product node, then the sum node. */
  function MulAdd(nodes: seq<Node>, wi: nat, xi: Operand, acc: nat): (r: seq<Node>)
    requires acc < |nodes| && wi < |nodes| && OperandOk(nodes, xi)
    ensures nodes < r
    ensures r[|r| - 1].data == nodes[acc].data + nodes[wi].data * OperandValue(nodes, xi)
  {
    var n1 := Multiplied(nodes, wi, xi);
    assert nodes <= n1 && n1[acc] == nodes[acc];
    Added(n1, acc, Ref(|n1| - 1))
  }

  /**
   * The arena and the result of a neuron's weighted sum: a left fold of the
   * pairwise products of weights and inputs onto `acc`, stopping at the
   * shorter list. Each pair appends its product node, then the running-sum
   * node.
   */
  function SumProducts(nodes: seq<Node>, w: seq<nat>, x: seq<Operand>, acc: nat): (r: (seq<Node>, nat))
    requires acc < |nodes| && InArena(nodes, w) && InputsOk(nodes, x)
    ensures |nodes| <= |r.0| && r.1 < |r.0|
    ensures |w| > 0 && |x| > 0 ==> |nodes| <= r.1
    decreases |w|
  {
    if |w| == 0 || |x| == 0 then (nodes, acc)
    else
      var n2 := MulAdd(nodes, w[0], x[0], acc);
      SumProducts(n2, w[1..], x[1..], |n2| - 1)
  }

  /** The sum only appends to the arena. */
  lemma {:induction false} SumProductsGrows(nodes: seq<Node>, w: seq<nat>, x: seq<Operand>, acc: nat)
    requires acc < |nodes| && InArena(nodes, w) && InputsOk(nodes, x)
    ensures nodes <= SumProducts(nodes, w, x, acc).0
    decreases |w|
  {
    if |w| > 0 && |x| > 0 {
      var n2 := MulAdd(nodes, w[0], x[0], acc);
      Extended(nodes, n2, w, x);
      assert InArena(n2, w[1..]) && InputsOk(n2, x[1..]);
      SumProductsGrows(n2, w[1..], x[1..], |n2| - 1);
    }
  }

  /** Extending the arena does not change what the old nodes hold. */
  lemma {:induction false} Extended(nodes: seq<Node>, bigger: seq<Node>, w: seq<nat>, x: seq<Operand>)
    requires nodes <= bigger && InArena(nodes, w) && InputsOk(nodes, x)
    ensures InArena(bigger, w) && InputsOk(bigger, x)
    ensures Data(bigger, w) == Data(nodes, w) && Values(bigger, x) == Values(nodes, x)
  {
    forall i | 0 <= i < |w| ensures bigger[w[i]] == nodes[w[i]] {
    }
    forall i | 0 <= i < |x| ensures OperandValue(bigger, x[i]) == OperandValue(nodes, x[i]) {
      if x[i].Ref? {
        assert bigger[x[i].idx] == nodes[x[i].idx];
      }
    }
  }

  /** The running sum's data is the left-to-right sum of the products onto `acc`'s data. */
  lemma {:induction false} SumProductsValue(nodes: seq<Node>, w: seq<nat>, x: seq<Operand>, acc: nat)
    requires acc < |nodes| && InArena(nodes, w) && InputsOk(nodes, x)
    ensures var r := SumProducts(nodes, w, x, acc);
            r.0[r.1].data == SumFrom(nodes[acc].data, Data(nodes, w), Values(nodes, x))
    decreases |w|
  {
    if |w| > 0 && |x| > 0 {
      var n2 := MulAdd(nodes, w[0], x[0], acc);
      SumTail(nodes, n2, w, x, acc, |n2| - 1);
      SumFromStep(nodes, n2, w, x, acc);
      SumProductsValue(n2, w[1..], x[1..], |n2| - 1);
    }
  }

  /** After the first pair, the fold goes on from the new running sum over the rest of the data. */
  lemma {:induction false} SumFromStep(nodes: seq<Node>, n2: seq<Node>, w: seq<nat>, x: seq<Operand>, acc: nat)
    requires acc < |nodes| && InArena(nodes, w) && InputsOk(nodes, x) && |w| > 0 && |x| > 0
    requires n2 == MulAdd(nodes, w[0], x[0], acc)
    ensures InArena(n2, w[1..]) && InputsOk(n2, x[1..])
    ensures SumFrom(nodes[acc].data, Data(nodes, w), Values(nodes, x)) ==
            SumFrom(n2[|n2| - 1].data, Data(n2, w[1..]), Values(n2, x[1..]))
  {
    var d, v := Data(nodes, w), Values(nodes, x);
    assert n2[|n2| - 1].data == nodes[acc].data + d[0] * v[0];
    assert SumFrom(nodes[acc].data, d, v) == SumFrom(nodes[acc].data + d[0] * v[0], d[1..], v[1..]);
    Extended(nodes, n2, w, x);
    assert Data(n2, w[1..]) == d[1..];
    assert Values(n2, x[1..]) == v[1..];
  }

  /** What `n(x)` evaluates to: `b + Σ wᵢ·xᵢ` over the truncated zip, with no activation. */
  function NeuronValue(nodes: seq<Node>, n: Neuron, x: seq<Operand>): real
    requires NeuronIn(nodes, n) && InputsOk(nodes, x)
  {
    nodes[n.b].data + Dot(Data(nodes, n.w), Values(nodes, x))
  }

  /**
   * `Neuron.__call__`: the output node holds `b + Σ wᵢ·xᵢ`; when `zip` forms
   * no pair the output is the bias node itself and nothing is built.
   */
  lemma {:induction false} NeuronComputes(nodes: seq<Node>, n: Neuron, x: seq<Operand>)
    requires NeuronIn(nodes, n) && InputsOk(nodes, x)
    ensures var r := SumProducts(nodes, n.w, x, n.b);
            r.0[r.1].data == NeuronValue(nodes, n, x) &&
            (r.1 == n.b <==> |n.w| == 0 || |x| == 0) &&
            (r.0 == nodes <==> |n.w| == 0 || |x| == 0)
  {
    SumProductsValue(nodes, n.w, x, n.b);
    SumFromIsDot(nodes[n.b].data, Data(nodes, n.w), Values(nodes, x));
  }

  /** `acc + wi * xi` on the graph: one product node and one running-sum node. */
  method MulAddCall(g: Graph, wi: nat, xi: Operand, acc: nat) returns (out: nat)
    requires g.Valid() && acc < |g.nodes| && wi < |g.nodes| && OperandOk(g.nodes, xi)
    modifies g
    ensures g.Valid()
    ensures g.nodes == MulAdd(old(g.nodes), wi, xi, acc) && out == |g.nodes| - 1
    ensures g.grad == old(g.grad) + Zeros(|g.nodes| - |old(g.nodes)|)
  {
    var p := g.Mul(wi, xi);
    ghost var mid, gm := g.nodes, g.grad;
    out := g.Add(acc, Ref(p));
    ZerosGrow(old(g.grad), gm, g.grad, |mid| - |old(g.nodes)|, |g.nodes| - |mid|, |g.nodes| - |old(g.nodes)|);
  }

  /** After the first pair, the sum goes on from the new running-sum node over the rest. */
  lemma {:induction false} SumTail(nodes: seq<Node>, mid: seq<Node>, w: seq<nat>, x: seq<Operand>, acc: nat, p: nat)
    requires acc < |nodes| && InArena(nodes, w) && InputsOk(nodes, x) && |w| > 0 && |x| > 0
    requires mid == MulAdd(nodes, w[0], x[0], acc) && p == |mid| - 1
    ensures InArena(mid, w[1..]) && InputsOk(mid, x[1..])
    ensures SumProducts(nodes, w, x, acc) == SumProducts(mid, w[1..], x[1..], p)
  {
    Extended(nodes, mid, w, x);
  }

  /**
   * The running sum of `n(x)` on the graph from `acc` on: for each remaining pair,
   * `acc + wi * xi`.
   */
  method SumCall(g: Graph, w: seq<nat>, x: seq<Operand>, acc: nat) returns (out: nat)
    requires g.Valid() && acc < |g.nodes| && InArena(g.nodes, w) && InputsOk(g.nodes, x)
    modifies g
    ensures g.Valid() && (g.nodes, out) == SumProducts(old(g.nodes), w, x, acc)
    ensures g.grad == old(g.grad) + Zeros(|g.nodes| - |old(g.nodes)|)
    decreases |w|
  {
    if |w| == 0 || |x| == 0 {
      out := acc;
      assert g.grad == old(g.grad) + Zeros(0);
    } else {
      var p := MulAddCall(g, w[0], x[0], acc);
      ghost var mid, gm := g.nodes, g.grad;
      SumTail(old(g.nodes), mid, w, x, acc, p);
      out := SumCall(g, w[1..], x[1..], p);
      ZerosGrow(old(g.grad), gm, g.grad, |mid| - |old(g.nodes)|, |g.nodes| - |mid|, |g.nodes| - |old(g.nodes)|);
    }
  }

  /** `n(x)` */
  method NeuronCall(g: Graph, n: Neuron, x: seq<Operand>) returns (out: nat)
    requires g.Valid() && NeuronIn(g.nodes, n) && InputsOk(g.nodes, x)
    modifies g
    ensures g.Valid()
    ensures old(g.nodes) <= g.nodes && g.grad == old(g.grad) + Zeros(|g.nodes| - |old(g.nodes)|)
    ensures (g.nodes, out) == SumProducts(old(g.nodes), n.w, x, n.b)
  {
    out := SumCall(g, n.w, x, n.b);
    SumProductsGrows(old(g.nodes), n.w, x, n.b);
  }

  /** A neuron's output does not depend on nodes appended after its parameters and inputs. */
  lemma {:induction false} NeuronValueExtended(nodes: seq<Node>, bigger: seq<Node>, n: Neuron, x: seq<Operand>)
    requires nodes <= bigger && NeuronIn(nodes, n) && InputsOk(nodes, x)
    ensures NeuronIn(bigger, n) && InputsOk(bigger, x)
    ensures NeuronValue(bigger, n, x) == NeuronValue(nodes, n, x)
  {
    Extended(nodes, bigger, n.w, x);
    assert bigger[n.b] == nodes[n.b];
  }

  /** Parameters and inputs that sit in an arena still do once it has grown. */
  lemma {:induction false} LayerExtended(nodes: seq<Node>, bigger: seq<Node>, neurons: seq<Neuron>, x: seq<Operand>)
    requires nodes <= bigger && LayerIn(nodes, neurons) && InputsOk(nodes, x)
    ensures LayerIn(bigger, neurons) && InputsOk(bigger, x)
  {
    forall k | 0 <= k < |neurons| ensures NeuronIn(bigger, neurons[k]) {
      Extended(nodes, bigger, neurons[k].w, x);
    }
    Extended(nodes, bigger, [], x);
  }

  // ------------------------------------------------------------------ layers

  /** A layer's outputs as returned: one output unwrapped, any other number as a list. */
  function Unwrap(out: seq<nat>): (o: Output)
    ensures Items(o) == out
    ensures o.Single? <==> |out| == 1
  {
    if |out| == 1 then Single(out[0]) else Multiple(out)
  }

  /** The outputs a call returned, as a list. */
  function Items(o: Output): seq<nat>
  {
    match o
    case Single(v) => [v]
    case Multiple(vs) => vs
  }

  /**
   * The arena and the outputs of a layer's neurons called in turn, all on
   * the same inputs `x`.
   */
  function LayerRun(nodes: seq<Node>, neurons: seq<Neuron>, x: seq<Operand>): (r: (seq<Node>, seq<nat>))
    requires LayerIn(nodes, neurons) && InputsOk(nodes, x)
    ensures |nodes| <= |r.0| && |r.1| == |neurons| && InArena(r.0, r.1)
    decreases |neurons|
  {
    if neurons == [] then (nodes, [])
    else
      var s := SumProducts(nodes, neurons[0].w, x, neurons[0].b);
      SumProductsGrows(nodes, neurons[0].w, x, neurons[0].b);
      LayerExtended(nodes, s.0, neurons[1..], x);
      var rest := LayerRun(s.0, neurons[1..], x);
      (rest.0, [s.1] + rest.1)
  }

  /** After the first neuron's call, the layer goes on from the arena it left. */
  lemma {:induction false} LayerRunCons(nodes: seq<Node>, neurons: seq<Neuron>, x: seq<Operand>, mid: seq<Node>, o: nat)
    requires LayerIn(nodes, neurons) && InputsOk(nodes, x) && neurons != []
    requires (mid, o) == SumProducts(nodes, neurons[0].w, x, neurons[0].b)
    ensures nodes <= mid && LayerIn(mid, neurons[1..]) && InputsOk(mid, x)
    ensures LayerRun(nodes, neurons, x) == (LayerRun(mid, neurons[1..], x).0, [o] + LayerRun(mid, neurons[1..], x).1)
  {
    SumProductsGrows(nodes, neurons[0].w, x, neurons[0].b);
    LayerExtended(nodes, mid, neurons[1..], x);
  }

  /** A layer only appends to the arena. */
  lemma {:induction false} LayerRunGrows(nodes: seq<Node>, neurons: seq<Neuron>, x: seq<Operand>)
    requires LayerIn(nodes, neurons) && InputsOk(nodes, x)
    ensures nodes <= LayerRun(nodes, neurons, x).0
    decreases |neurons|
  {
    if neurons != [] {
      var s := SumProducts(nodes, neurons[0].w, x, neurons[0].b);
      SumProductsGrows(nodes, neurons[0].w, x, neurons[0].b);
      LayerExtended(nodes, s.0, neurons[1..], x);
      LayerRunGrows(s.0, neurons[1..], x);
    }
  }

  /**
   * `Layer.__call__`: one output per neuron, in neuron order, and output `k`
   * holds what neuron `k` computes on the layer's inputs.
   */
  lemma {:induction false} LayerComputes(nodes: seq<Node>, neurons: seq<Neuron>, x: seq<Operand>)
    requires LayerIn(nodes, neurons) && InputsOk(nodes, x)
    ensures var r := LayerRun(nodes, neurons, x);
            |r.1| == |neurons| &&
            forall k :: 0 <= k < |neurons| ==> r.0[r.1[k]].data == NeuronValue(nodes, neurons[k], x)
    decreases |neurons|
  {
    if neurons != [] {
      var n := neurons[0];
      var s := SumProducts(nodes, n.w, x, n.b);
      SumProductsGrows(nodes, n.w, x, n.b);
      LayerExtended(nodes, s.0, neurons[1..], x);
      var rest := LayerRun(s.0, neurons[1..], x);
      var r := LayerRun(nodes, neurons, x);
      assert r == (rest.0, [s.1] + rest.1);
      NeuronComputes(nodes, n, x);
      LayerRunGrows(s.0, neurons[1..], x);
      assert rest.0[s.1] == s.0[s.1];
      LayerComputes(s.0, neurons[1..], x);
      LayerConsValues(nodes, s.0, neurons, x, rest.0, s.1, rest.1);
    }
  }

  /**
   * The first neuron's output, followed by the outputs the other neurons
   * computed on the longer arena `mid`, hold what each neuron computes on
   * the original arena.
   */
  lemma {:induction false} LayerConsValues(nodes: seq<Node>, mid: seq<Node>, neurons: seq<Neuron>, x: seq<Operand>,
                                           final: seq<Node>, first: nat, outs: seq<nat>)
    requires nodes <= mid && LayerIn(nodes, neurons) && InputsOk(nodes, x) && neurons != []
    requires LayerIn(mid, neurons[1..]) && InputsOk(mid, x)
    requires |outs| == |neurons| - 1 && InArena(final, outs) && first < |final|
    requires final[first].data == NeuronValue(nodes, neurons[0], x)
    requires forall k :: 0 <= k < |outs| ==> final[outs[k]].data == NeuronValue(mid, neurons[1..][k], x)
    ensures forall k :: 0 <= k < |neurons| ==> final[([first] + outs)[k]].data == NeuronValue(nodes, neurons[k], x)
  {
    forall k | 1 <= k < |neurons| ensures final[([first] + outs)[k]].data == NeuronValue(nodes, neurons[k], x) {
      assert ([first] + outs)[k] == outs[k - 1] && neurons[1..][k - 1] == neurons[k];
      NeuronValueExtended(nodes, mid, neurons[k], x);
    }
  }

  /** Every neuron of a layer called in turn on the graph, all on the same inputs. */
  method NeuronsCall(g: Graph, neurons: seq<Neuron>, x: seq<Operand>) returns (outs: seq<nat>)
    requires g.Valid() && LayerIn(g.nodes, neurons) && InputsOk(g.nodes, x)
    modifies g
    ensures g.Valid() && (g.nodes, outs) == LayerRun(old(g.nodes), neurons, x)
    ensures g.grad == old(g.grad) + Zeros(|g.nodes| - |old(g.nodes)|)
    decreases |neurons|
  {
    if neurons == [] {
      outs := [];
      assert g.grad == old(g.grad) + Zeros(0);
    } else {
      var o := NeuronCall(g, neurons[0], x);
      ghost var mid, gm := g.nodes, g.grad;
      LayerRunCons(old(g.nodes), neurons, x, mid, o);
      var rest := NeuronsCall(g, neurons[1..], x);
      ZerosGrow(old(g.grad), gm, g.grad, |mid| - |old(g.nodes)|, |g.nodes| - |mid|, |g.nodes| - |old(g.nodes)|);
      outs := [o] + rest;
    }
  }

  /** `Layer.__call__`: every neuron on the same inputs, the outputs unwrapped when there is one. */
  method LayerCall(g: Graph, l: Layer, x: seq<Operand>) returns (o: Output)
    requires g.Valid() && LayerIn(g.nodes, l.neurons) && InputsOk(g.nodes, x)
    modifies g
    ensures g.Valid()
    ensures var r := LayerRun(old(g.nodes), l.neurons, x);
            g.nodes == r.0 && o == Unwrap(r.1)
    ensures g.grad == old(g.grad) + Zeros(|g.nodes| - |old(g.nodes)|)
  {
    var outs := NeuronsCall(g, l.neurons, x);
    o := Unwrap(outs);
  }

  // ------------------------------------------------------------- activations

  /** The activation layers `ReLU`, `Tanh` and `Sigmoid`. */
  predicate IsActivation(m: Module)
  {
    m.ReluLayer? || m.TanhLayer? || m.SigmoidLayer?
  }

  /**
   * The node `xi.relu()`, `xi.tanh()` or `xi.sigmoid()` appends; `f` is the
   * hyperbolic tangent or the logistic function of the input, which the model
   * does not compute.
   */
  function Activated(nodes: seq<Node>, m: Module, xi: nat, f: real): Node
    requires IsActivation(m) && xi < |nodes|
  {
    if m.ReluLayer? then Node(ReluOf(nodes[xi].data), Op.Relu(xi))
    else if m.TanhLayer? then Node(f, Op.Tanh(xi))
    else Node(f, Op.Sigmoid(xi))
  }

  /** The nodes an activation layer appends, one per input, in order. */
  function Activations(nodes: seq<Node>, m: Module, x: seq<nat>, fs: seq<real>): (r: seq<Node>)
    requires IsActivation(m) && InArena(nodes, x) && |fs| == |x|
    ensures |r| == |x|
    ensures forall k :: 0 <= k < |x| ==> Operands(r[k].op) == {x[k]}
  {
    seq(|x|, k requires 0 <= k < |x| => Activated(nodes, m, x[k], fs[k]))
  }

  /**
   * Output `k` of an activation layer has input `k` as its one operand; ReLU's
   * is the input clamped below at 0, the others' the value supplied for it.
   */
  lemma {:induction false} ActivationOutputs(nodes: seq<Node>, m: Module, x: seq<nat>, fs: seq<real>, k: nat)
    requires IsActivation(m) && InArena(nodes, x) && |fs| == |x| && k < |x|
    ensures var a := Activations(nodes, m, x, fs)[k];
            Operands(a.op) == {x[k]} &&
            (m.ReluLayer? ==> a.data == (if nodes[x[k]].data < 0.0 then 0.0 else nodes[x[k]].data)) &&
            (!m.ReluLayer? ==> a.data == fs[k])
  {
  }

  /** After the first input's node, the rest of the layer appends what it would have. */
  lemma {:induction false} ActivationsCons(nodes: seq<Node>, mid: seq<Node>, m: Module, x: seq<nat>, fs: seq<real>)
    requires IsActivation(m) && InArena(nodes, x) && |fs| == |x| && |x| > 0
    requires mid == nodes + [Activated(nodes, m, x[0], fs[0])]
    ensures InArena(mid, x[1..])
    ensures nodes + Activations(nodes, m, x, fs) == mid + Activations(mid, m, x[1..], fs[1..])
  {
    ActivationsExtended(nodes, mid, m, x, fs);
    var a := Activations(nodes, m, x, fs);
    assert [a[0]] + a[1..] == a;
    Grow(nodes, mid, mid + a[1..], [a[0]], a[1..]);
  }

  /** The rest of the layer computes the same nodes on a longer arena. */
  lemma {:induction false} ActivationsExtended(nodes: seq<Node>, mid: seq<Node>, m: Module, x: seq<nat>, fs: seq<real>)
    requires IsActivation(m) && InArena(nodes, x) && |fs| == |x| && |x| > 0 && nodes <= mid
    ensures InArena(mid, x[1..])
    ensures Activations(mid, m, x[1..], fs[1..]) == Activations(nodes, m, x, fs)[1..]
  {
    var a, b := Activations(nodes, m, x, fs), Activations(mid, m, x[1..], fs[1..]);
    forall k | 0 <= k < |b| ensures b[k] == a[k + 1] {
      assert mid[x[k + 1]] == nodes[x[k + 1]];
    }
  }

  /** The activation applied to every input in turn, on the graph. */
  method ActivateAll(g: Graph, m: Module, x: seq<nat>, fs: seq<real>) returns (outs: seq<nat>)
    requires g.Valid() && IsActivation(m) && InArena(g.nodes, x) && |fs| == |x|
    modifies g
    ensures g.Valid() && g.nodes == old(g.nodes) + Activations(old(g.nodes), m, x, fs)
    ensures g.grad == old(g.grad) + Zeros(|x|)
    ensures outs == Range(|old(g.nodes)|, |x|)
    decreases |x|
  {
    if x == [] {
      outs := [];
      assert g.grad == old(g.grad) + Zeros(0);
    } else {
      var o;
      if m.ReluLayer? {
        o := g.Relu(x[0]);
      } else if m.TanhLayer? {
        o := g.Tanh(x[0], fs[0]);
      } else {
        o := g.Sigmoid(x[0], fs[0]);
      }
      ghost var mid, gm := g.nodes, g.grad;
      ActivationsCons(old(g.nodes), mid, m, x, fs);
      var rest := ActivateAll(g, m, x[1..], fs[1..]);
      ZerosGrow(old(g.grad), gm, g.grad, 1, |x| - 1, |x|);
      RangeJoin(o, 1, |mid|, |x| - 1, |x|);
      outs := [o] + rest;
    }
  }

  /**
   * `ReLU.__call__`, `Tanh.__call__` and `Sigmoid.__call__`: one new node per
   * input, the outputs unwrapped when there is one.
   */
  method ActivationCall(g: Graph, m: Module, x: seq<nat>, fs: seq<real>) returns (o: Output)
    requires g.Valid() && IsActivation(m) && InArena(g.nodes, x) && |fs| == |x|
    modifies g
    ensures g.Valid() && g.nodes == old(g.nodes) + Activations(old(g.nodes), m, x, fs)
    ensures g.grad == old(g.grad) + Zeros(|x|)
    ensures o == Unwrap(Range(|old(g.nodes)|, |x|))
  {
    var outs := ActivateAll(g, m, x, fs);
    o := Unwrap(outs);
  }

  // --------------------------------------------------------------------- MLP

  /**
   * The arena and `z` after the loop of `MLP.__call__` over `layers`, starting
   * from `z`: every layer is called on the same `x`, and `z` is rebound to its
   * output.
   */
  function MLPRunFrom(nodes: seq<Node>, layers: seq<Layer>, x: seq<Operand>, z: Result<Output, NNError>)
    : (r: (seq<Node>, Result<Output, NNError>))
    requires MLPIn(nodes, layers) && InputsOk(nodes, x)
    ensures |nodes| <= |r.0|
    ensures layers == [] ==> r.0 == nodes && r.1 == z
    ensures layers != [] ==> r.1.Ok?
    decreases |layers|
  {
    if layers == [] then (nodes, z)
    else
      var l := LayerRun(nodes, layers[0].neurons, x);
      LayerRunGrows(nodes, layers[0].neurons, x);
      MLPExtended(nodes, l.0, layers[1..], x);
      MLPRunFrom(l.0, layers[1..], x, Ok(Unwrap(l.1)))
  }

  /** `MLP.__call__`: with no layer, `z` is never bound and the call fails. */
  function MLPRun(nodes: seq<Node>, layers: seq<Layer>, x: seq<Operand>): (r: (seq<Node>, Result<Output, NNError>))
    requires MLPIn(nodes, layers) && InputsOk(nodes, x)
    ensures |nodes| <= |r.0|
    ensures r.1.Err? <==> layers == []
    ensures layers == [] ==> r.0 == nodes
  {
    MLPRunFrom(nodes, layers, x, Err(NoLayers))
  }

  lemma {:induction false} MLPExtended(nodes: seq<Node>, bigger: seq<Node>, layers: seq<Layer>, x: seq<Operand>)
    requires nodes <= bigger && MLPIn(nodes, layers) && InputsOk(nodes, x)
    ensures MLPIn(bigger, layers) && InputsOk(bigger, x)
  {
    forall i | 0 <= i < |layers| ensures LayerIn(bigger, layers[i].neurons) {
      LayerExtended(nodes, bigger, layers[i].neurons, x);
    }
    Extended(nodes, bigger, [], x);
  }

  /**
   * The loop of `MLP.__call__` with at least one layer left ends with `z` the
   * last layer's outputs on the original `x`: output `k` holds what neuron `k`
   * of the last layer computes on `x`.
   */
  lemma {:induction false} MLPRunFromLast(nodes: seq<Node>, layers: seq<Layer>, x: seq<Operand>, z: Result<Output, NNError>)
    requires MLPIn(nodes, layers) && InputsOk(nodes, x) && layers != []
    ensures var r := MLPRunFrom(nodes, layers, x, z);
            var last := layers[|layers| - 1].neurons;
            nodes <= r.0 && r.1.Ok? && |Items(r.1.value)| == |last| && InArena(r.0, Items(r.1.value)) &&
            forall k :: 0 <= k < |last| ==> r.0[Items(r.1.value)[k]].data == NeuronValue(nodes, last[k], x)
    decreases |layers|
  {
    var l := LayerRun(nodes, layers[0].neurons, x);
    LayerRunGrows(nodes, layers[0].neurons, x);
    MLPExtended(nodes, l.0, layers[1..], x);
    var last := layers[|layers| - 1].neurons;
    assert MLPRunFrom(nodes, layers, x, z) == MLPRunFrom(l.0, layers[1..], x, Ok(Unwrap(l.1)));
    if |layers| == 1 {
      LayerComputes(nodes, layers[0].neurons, x);
    } else {
      MLPRunFromLast(l.0, layers[1..], x, Ok(Unwrap(l.1)));
      assert layers[1..][|layers| - 2] == layers[|layers| - 1];
      forall k | 0 <= k < |last| ensures NeuronValue(l.0, last[k], x) == NeuronValue(nodes, last[k], x) {
        assert LayerIn(nodes, last);
        NeuronValueExtended(nodes, l.0, last[k], x);
      }
    }
  }

  /**
   * `MLP.__call__` follows its code: every layer is applied to the original
   * `x`, so the result is the last layer's outputs on `x`; with no layers the
   * call fails and nothing is built.
   */
  lemma {:induction false} MLPComputes(nodes: seq<Node>, layers: seq<Layer>, x: seq<Operand>)
    requires MLPIn(nodes, layers) && InputsOk(nodes, x)
    ensures var r := MLPRun(nodes, layers, x);
            (r.1.Err? <==> layers == []) && (layers == [] ==> r.0 == nodes) &&
            (layers != [] ==>
              var last := layers[|layers| - 1].neurons;
              nodes <= r.0 && |Items(r.1.value)| == |last| && InArena(r.0, Items(r.1.value)) &&
              forall k :: 0 <= k < |last| ==> r.0[Items(r.1.value)[k]].data == NeuronValue(nodes, last[k], x))
  {
    if layers != [] {
      MLPRunFromLast(nodes, layers, x, Err(NoLayers));
    }
  }

  /** `MLP.__call__`: a loop that calls each layer on `x` and rebinds `z` to its output, then returns `z`. */
  method MLPCall(g: Graph, m: MLP, x: seq<Operand>) returns (z: Result<Output, NNError>)
    requires g.Valid() && MLPIn(g.nodes, m.layers) && InputsOk(g.nodes, x)
    modifies g
    ensures g.Valid() && (g.nodes, z) == MLPRun(old(g.nodes), m.layers, x)
    ensures g.grad == old(g.grad) + Zeros(|g.nodes| - |old(g.nodes)|)
  {
    z := Err(NoLayers);
    ghost var want := MLPRun(g.nodes, m.layers, x);
    var i := 0;
    assert g.grad == old(g.grad) + Zeros(0);
    while i < |m.layers|
      invariant i <= |m.layers| && g.Valid() && MLPIn(g.nodes, m.layers[i..]) && InputsOk(g.nodes, x)
      invariant MLPRunFrom(g.nodes, m.layers[i..], x, z) == want
      invariant |old(g.nodes)| <= |g.nodes| && g.grad == old(g.grad) + Zeros(|g.nodes| - |old(g.nodes)|)
    {
      ghost var before, gb := g.nodes, g.grad;
      MLPNext(before, m.layers, i, x);
      var out := LayerCall(g, m.layers[i], x);
      MLPLoopStep(before, g.nodes, m.layers, i, x, out);
      z := Ok(out);
      ZerosGrow(old(g.grad), gb, g.grad, |before| - |old(g.nodes)|, |g.nodes| - |before|, |g.nodes| - |old(g.nodes)|);
      i := i + 1;
    }
  }

  /** The next layer of the loop has its parameters in the arena. */
  lemma {:induction false} MLPNext(nodes: seq<Node>, layers: seq<Layer>, i: nat, x: seq<Operand>)
    requires i < |layers| && MLPIn(nodes, layers[i..])
    ensures LayerIn(nodes, layers[i].neurons)
  {
    assert layers[i..][0] == layers[i];
  }

  /** One turn of the loop of `MLP.__call__`: the rest of the loop goes on from the new arena and `z`. */
  lemma {:induction false} MLPLoopStep(before: seq<Node>, after: seq<Node>, layers: seq<Layer>, i: nat,
                                       x: seq<Operand>, z: Output)
    requires i < |layers| && MLPIn(before, layers[i..]) && InputsOk(before, x)
    requires var r := LayerRun(before, layers[i].neurons, x); after == r.0 && z == Unwrap(r.1)
    ensures MLPIn(after, layers[i + 1..]) && InputsOk(after, x) && |before| <= |after|
    ensures forall z0 :: MLPRunFrom(before, layers[i..], x, z0) == MLPRunFrom(after, layers[i + 1..], x, Ok(z))
  {
    assert layers[i..][0] == layers[i] && layers[i..][1..] == layers[i + 1..];
    LayerRunGrows(before, layers[i].neurons, x);
    MLPExtended(before, after, layers[i + 1..], x);
  }
}
