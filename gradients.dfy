/**
 * What `backward()` leaves on small graphs, one per local rule of
 * michigrad/engine.py, for every order `build_topo` may produce and for any
 * gradients already present (they are added to, never reset).
 */
module Gradients {
  import opened Engine
  import opened Backprop
  import NN

  /** `z = x + y`: the rule hands the output gradient, 1, to both operands. */
  lemma {:induction false} AddGradients(x: real, y: real, g0: seq<real>, topo: seq<nat>)
    requires |g0| == 3
    requires IsTopoOrder([Node(x, Leaf), Node(y, Leaf), Node(x + y, Add(0, 1))], 2, topo)
    ensures BackwardGrads([Node(x, Leaf), Node(y, Leaf), Node(x + y, Add(0, 1))], g0, 2, topo) ==
            [g0[0] + 1.0, g0[1] + 1.0, 1.0]
  {
    var nodes := [Node(x, Leaf), Node(y, Leaf), Node(x + y, Add(0, 1))];
    var final := BackwardGrads(nodes, g0, 2, topo);
    assert Reach(nodes, 2) == {0, 1, 2};
    BackwardSolvesChainRule(nodes, g0, 2, topo);
    BackwardRootIsOne(nodes, g0, 2, topo);
    OneFeeder(nodes, Reach(nodes, 2), g0[2 := 1.0], final, 2, 0);
    OneFeeder(nodes, Reach(nodes, 2), g0[2 := 1.0], final, 2, 1);
    assert final[0] == g0[0] + 1.0 * 1.0 && final[1] == g0[1] + 1.0 * 1.0;
  }

  /** `z = x * y`: each operand receives the other's data times the output gradient. */
  lemma {:induction false} MulGradients(x: real, y: real, g0: seq<real>, topo: seq<nat>)
    requires |g0| == 3
    requires IsTopoOrder([Node(x, Leaf), Node(y, Leaf), Node(x * y, Mul(0, 1))], 2, topo)
    ensures BackwardGrads([Node(x, Leaf), Node(y, Leaf), Node(x * y, Mul(0, 1))], g0, 2, topo) ==
            [g0[0] + y, g0[1] + x, 1.0]
  {
    var nodes := [Node(x, Leaf), Node(y, Leaf), Node(x * y, Mul(0, 1))];
    var final := BackwardGrads(nodes, g0, 2, topo);
    assert Reach(nodes, 2) == {0, 1, 2};
    BackwardSolvesChainRule(nodes, g0, 2, topo);
    BackwardRootIsOne(nodes, g0, 2, topo);
    OneFeeder(nodes, Reach(nodes, 2), g0[2 := 1.0], final, 2, 0);
    OneFeeder(nodes, Reach(nodes, 2), g0[2 := 1.0], final, 2, 1);
    assert final[0] == g0[0] + y * 1.0 && final[1] == g0[1] + x * 1.0;
  }

  /** `z = x * x`: both `+=` statements of the rule land on `x`, giving `2x`. */
  lemma {:induction false} SquareGradients(x: real, g0: seq<real>, topo: seq<nat>)
    requires |g0| == 2
    requires IsTopoOrder([Node(x, Leaf), Node(x * x, Mul(0, 0))], 1, topo)
    ensures BackwardGrads([Node(x, Leaf), Node(x * x, Mul(0, 0))], g0, 1, topo) == [g0[0] + 2.0 * x, 1.0]
  {
    var nodes := [Node(x, Leaf), Node(x * x, Mul(0, 0))];
    var final := BackwardGrads(nodes, g0, 1, topo);
    assert Reach(nodes, 1) == {0, 1};
    BackwardSolvesChainRule(nodes, g0, 1, topo);
    BackwardRootIsOne(nodes, g0, 1, topo);
    OneFeeder(nodes, Reach(nodes, 1), g0[1 := 1.0], final, 1, 0);
    assert final[0] == g0[0] + (x + x) * 1.0;
  }

  /** `x * x` at `x = 3`, from zero gradients: `x.grad` is 6. */
  lemma {:induction false} SquareAtThree(topo: seq<nat>)
    requires IsTopoOrder([Node(3.0, Leaf), Node(9.0, Mul(0, 0))], 1, topo)
    ensures BackwardGrads([Node(3.0, Leaf), Node(9.0, Mul(0, 0))], [0.0, 0.0], 1, topo) == [6.0, 1.0]
  {
    SquareGradients(3.0, [0.0, 0.0], topo);
  }

  /** `z = x ** k`: the base receives `k * x ** (k - 1)`. */
  lemma {:induction false} PowGradients(x: real, k: int, g0: seq<real>, topo: seq<nat>)
    requires k >= 0 || x != 0.0
    requires |g0| == 2
    requires IsTopoOrder([Node(x, Leaf), Node(Power(x, k), Pow(0, k))], 1, topo)
    ensures BackwardGrads([Node(x, Leaf), Node(Power(x, k), Pow(0, k))], g0, 1, topo) ==
            [g0[0] + PowSlope(x, k), 1.0]
  {
    var nodes := [Node(x, Leaf), Node(Power(x, k), Pow(0, k))];
    var final := BackwardGrads(nodes, g0, 1, topo);
    assert Reach(nodes, 1) == {0, 1};
    BackwardSolvesChainRule(nodes, g0, 1, topo);
    BackwardRootIsOne(nodes, g0, 1, topo);
    OneFeeder(nodes, Reach(nodes, 1), g0[1 := 1.0], final, 1, 0);
    assert final[0] == g0[0] + PowSlope(x, k) * 1.0;
  }

  /** `z = x.relu()`: the gradient passes only when the output is positive, so not at `x = 0`. */
  lemma {:induction false} ReluGradients(x: real, g0: seq<real>, topo: seq<nat>)
    requires |g0| == 2
    requires IsTopoOrder([Node(x, Leaf), Node(ReluOf(x), Relu(0))], 1, topo)
    ensures BackwardGrads([Node(x, Leaf), Node(ReluOf(x), Relu(0))], g0, 1, topo) ==
            [g0[0] + (if x > 0.0 then 1.0 else 0.0), 1.0]
  {
    var nodes := [Node(x, Leaf), Node(ReluOf(x), Relu(0))];
    var final := BackwardGrads(nodes, g0, 1, topo);
    assert Reach(nodes, 1) == {0, 1};
    BackwardSolvesChainRule(nodes, g0, 1, topo);
    BackwardRootIsOne(nodes, g0, 1, topo);
    OneFeeder(nodes, Reach(nodes, 1), g0[1 := 1.0], final, 1, 0);
    assert final[0] == g0[0] + (if x > 0.0 then 1.0 else 0.0) * 1.0;
  }

  /** `z = x.tanh()` with output `t`: the input receives `1 - t²`. */
  lemma {:induction false} TanhGradients(x: real, t: real, g0: seq<real>, topo: seq<nat>)
    requires |g0| == 2
    requires IsTopoOrder([Node(x, Leaf), Node(t, Tanh(0))], 1, topo)
    ensures BackwardGrads([Node(x, Leaf), Node(t, Tanh(0))], g0, 1, topo) == [g0[0] + (1.0 - t * t), 1.0]
  {
    var nodes := [Node(x, Leaf), Node(t, Tanh(0))];
    var final := BackwardGrads(nodes, g0, 1, topo);
    assert Reach(nodes, 1) == {0, 1};
    BackwardSolvesChainRule(nodes, g0, 1, topo);
    BackwardRootIsOne(nodes, g0, 1, topo);
    OneFeeder(nodes, Reach(nodes, 1), g0[1 := 1.0], final, 1, 0);
    assert final[0] == g0[0] + (1.0 - t * t) * 1.0;
  }

  /** `z = x.sigmoid()` with output `s`: the input receives `s (1 - s)`. */
  lemma {:induction false} SigmoidGradients(x: real, s: real, g0: seq<real>, topo: seq<nat>)
    requires |g0| == 2
    requires IsTopoOrder([Node(x, Leaf), Node(s, Sigmoid(0))], 1, topo)
    ensures BackwardGrads([Node(x, Leaf), Node(s, Sigmoid(0))], g0, 1, topo) == [g0[0] + s * (1.0 - s), 1.0]
  {
    var nodes := [Node(x, Leaf), Node(s, Sigmoid(0))];
    var final := BackwardGrads(nodes, g0, 1, topo);
    assert Reach(nodes, 1) == {0, 1};
    BackwardSolvesChainRule(nodes, g0, 1, topo);
    BackwardRootIsOne(nodes, g0, 1, topo);
    OneFeeder(nodes, Reach(nodes, 1), g0[1 := 1.0], final, 1, 0);
    assert final[0] == g0[0] + s * (1.0 - s) * 1.0;
  }

  /** `z = x.exp()` with output `e`: the input receives `e`. */
  lemma {:induction false} ExpGradients(x: real, e: real, g0: seq<real>, topo: seq<nat>)
    requires |g0| == 2
    requires IsTopoOrder([Node(x, Leaf), Node(e, Exp(0))], 1, topo)
    ensures BackwardGrads([Node(x, Leaf), Node(e, Exp(0))], g0, 1, topo) == [g0[0] + e, 1.0]
  {
    var nodes := [Node(x, Leaf), Node(e, Exp(0))];
    var final := BackwardGrads(nodes, g0, 1, topo);
    assert Reach(nodes, 1) == {0, 1};
    BackwardSolvesChainRule(nodes, g0, 1, topo);
    BackwardRootIsOne(nodes, g0, 1, topo);
    OneFeeder(nodes, Reach(nodes, 1), g0[1 := 1.0], final, 1, 0);
    assert final[0] == g0[0] + e * 1.0;
  }

  /** The graph of `a * b + a * c`. */
  function FanOutGraph(a: real, b: real, c: real): (nodes: seq<Node>)
    ensures WellFormed(nodes)
  {
    [Node(a, Leaf), Node(b, Leaf), Node(c, Leaf),
     Node(a * b, Mul(0, 1)), Node(a * c, Mul(0, 2)), Node(a * b + a * c, Add(3, 4))]
  }

  /** Fan-out: `a` is used twice and accumulates both shares, `b + c`. */
  lemma {:induction false} FanOutGradients(a: real, b: real, c: real, topo: seq<nat>)
    requires IsTopoOrder(FanOutGraph(a, b, c), 5, topo)
    ensures BackwardGrads(FanOutGraph(a, b, c), [0.0, 0.0, 0.0, 0.0, 0.0, 0.0], 5, topo) ==
            [b + c, a, a, 1.0, 1.0, 1.0]
  {
    var nodes := FanOutGraph(a, b, c);
    var g0 := [0.0, 0.0, 0.0, 0.0, 0.0, 0.0];
    assert Reach(nodes, 5) == {0, 1, 2, 3, 4, 5} by {
      assert Reach(nodes, 3) == {0, 1, 3};
      assert Reach(nodes, 4) == {0, 2, 4};
    }
    BackwardSolvesChainRule(nodes, g0, 5, topo);
    BackwardRootIsOne(nodes, g0, 5, topo);
    FanOutShares(a, b, c, Reach(nodes, 5), g0[5 := 1.0], BackwardGrads(nodes, g0, 5, topo));
  }

  /** The chain-rule solution on the fan-out graph, worked from the root down. */
  lemma {:induction false} FanOutShares(a: real, b: real, c: real, within: set<nat>, start: seq<real>, g: seq<real>)
    requires within == {0, 1, 2, 3, 4, 5} && start == [0.0, 0.0, 0.0, 0.0, 0.0, 1.0]
    requires SolvesChainRule(FanOutGraph(a, b, c), within, start, g) && g[5] == 1.0
    ensures g == [b + c, a, a, 1.0, 1.0, 1.0]
  {
    var nodes := FanOutGraph(a, b, c);
    OneFeeder(nodes, within, start, g, 5, 3);
    OneFeeder(nodes, within, start, g, 5, 4);
    assert g[3] == 0.0 + 1.0 * 1.0 && g[4] == 0.0 + 1.0 * 1.0;
    OneFeeder(nodes, within, start, g, 3, 1);
    OneFeeder(nodes, within, start, g, 4, 2);
    assert g[1] == 0.0 + a * 1.0 && g[2] == 0.0 + a * 1.0;
    TwoFeeders(nodes, within, start, g, 3, 4, 0);
    assert g[0] == 0.0 + (b * 1.0 + c * 1.0);
  }

  /** Calling `backward()` twice without zeroing doubles a leaf's gradient. */
  lemma {:induction false} RepeatedBackwardAccumulates(x: real, y: real, topo: seq<nat>)
    requires IsTopoOrder([Node(x, Leaf), Node(y, Leaf), Node(x * y, Mul(0, 1))], 2, topo)
    ensures var nodes := [Node(x, Leaf), Node(y, Leaf), Node(x * y, Mul(0, 1))];
            var once := BackwardGrads(nodes, [0.0, 0.0, 0.0], 2, topo);
            BackwardGrads(nodes, once, 2, topo) == [2.0 * y, 2.0 * x, 1.0]
  {
    var nodes := [Node(x, Leaf), Node(y, Leaf), Node(x * y, Mul(0, 1))];
    MulGradients(x, y, [0.0, 0.0, 0.0], topo);
    var once := BackwardGrads(nodes, [0.0, 0.0, 0.0], 2, topo);
    MulGradients(x, y, once, topo);
  }

  /**
   * An inner node's stale gradient is not reset either: on `relu(relu(x))`
   * at `x = 2`, a second `backward()` from gradients all 1 sends the inner
   * node's 1 + 1 on to `x`, which ends at 3, not 2.
   */
  lemma {:induction false} StaleGradientPropagates(topo: seq<nat>)
    requires IsTopoOrder([Node(2.0, Leaf), Node(2.0, Relu(0)), Node(2.0, Relu(1))], 2, topo)
    ensures BackwardGrads([Node(2.0, Leaf), Node(2.0, Relu(0)), Node(2.0, Relu(1))], [1.0, 1.0, 1.0], 2, topo) ==
            [3.0, 2.0, 1.0]
  {
    var nodes := [Node(2.0, Leaf), Node(2.0, Relu(0)), Node(2.0, Relu(1))];
    var g0 := [1.0, 1.0, 1.0];
    var final := BackwardGrads(nodes, g0, 2, topo);
    assert Reach(nodes, 2) == {0, 1, 2};
    BackwardSolvesChainRule(nodes, g0, 2, topo);
    BackwardRootIsOne(nodes, g0, 2, topo);
    OneFeeder(nodes, Reach(nodes, 2), g0[2 := 1.0], final, 2, 1);
    assert final[1] == 1.0 + 1.0 * 1.0;
    OneFeeder(nodes, Reach(nodes, 2), g0[2 := 1.0], final, 1, 0);
    assert final[0] == 1.0 + 1.0 * 2.0;
  }

  /** The graph of a one-input neuron `b + w * x`, as its call builds it. */
  function NeuronGraph(w: real, b: real, x: real): (nodes: seq<Node>)
    ensures WellFormed(nodes)
  {
    [Node(w, Leaf), Node(b, Leaf), Node(x, Leaf), Node(w * x, Mul(0, 2)), Node(b + w * x, Add(1, 3))]
  }

  /** The neuron graph is what the weighted sum of `Neuron.__call__` appends to the leaves `w`, `b`, `x`. */
  lemma {:induction false} NeuronGraphBuilt(w: real, b: real, x: real)
    ensures NN.SumProducts([Node(w, Leaf), Node(b, Leaf), Node(x, Leaf)], [0], [Ref(2)], 1).0 == NeuronGraph(w, b, x)
  {
    var leaves := [Node(w, Leaf), Node(b, Leaf), Node(x, Leaf)];
    var n1 := Multiplied(leaves, 0, Ref(2));
    assert Promoted(leaves, Ref(2)) == leaves && PromotedIndex(leaves, Ref(2)) == 2;
    assert OperandValue(leaves, Ref(2)) == x;
    assert |n1| == 4 && n1[3] == Node(w * x, Mul(0, 2));
    assert n1 == leaves + [Node(w * x, Mul(0, 2))];
    var n2 := Added(n1, 1, Ref(3));
    assert n2 == n1 + [Node(b + w * x, Add(1, 3))];
    assert n2 == leaves + [Node(w * x, Mul(0, 2)), Node(b + w * x, Add(1, 3))];
    assert |NeuronGraph(w, b, x)| == 5;
    assert NeuronGraph(w, b, x)[4] == Node(b + w * x, Add(1, 3));
    assert NeuronGraph(w, b, x)[0] == Node(w, Leaf);
    assert NeuronGraph(w, b, x) == leaves + [Node(w * x, Mul(0, 2)), Node(b + w * x, Add(1, 3))];
    assert NN.MulAdd(leaves, 0, Ref(2), 1) == n2;
    assert NN.SumProducts(n2, [], [], 4) == (n2, 4);
  }

  /**
   * `zero_grad()` does not undo a `backward()`: on the neuron `b + w * x`
   * the first pass from zero gradients leaves `x` on `w`; `zero_grad()`
   * resets only `w` and `b`, the product and the sum keep their gradients,
   * and a second pass on the same output leaves `2 * x` on `w`.
   */
  lemma {:induction false} ZeroGradKeepsInnerGradients(w: real, b: real, x: real, topo: seq<nat>)
    requires IsTopoOrder(NeuronGraph(w, b, x), 4, topo)
    ensures var nodes := NeuronGraph(w, b, x);
            var once := BackwardGrads(nodes, [0.0, 0.0, 0.0, 0.0, 0.0], 4, topo);
            var reset := NN.ZeroedAt(once, NN.Parameters(NN.Unit(NN.Neuron([0], 1))));
            once == [x, 1.0, w, 1.0, 1.0] &&
            reset == [0.0, 0.0, w, 1.0, 1.0] &&
            BackwardGrads(nodes, reset, 4, topo) == [2.0 * x, 1.0, 3.0 * w, 2.0, 1.0]
  {
    var nodes := NeuronGraph(w, b, x);
    var once := BackwardGrads(nodes, [0.0, 0.0, 0.0, 0.0, 0.0], 4, topo);
    NeuronGradients(w, b, x, [0.0, 0.0, 0.0, 0.0, 0.0], topo);
    NeuronReset(once);
    NeuronGradients(w, b, x, NN.ZeroedAt(once, NN.Parameters(NN.Unit(NN.Neuron([0], 1)))), topo);
  }

  /** `backward()` on the neuron graph, from any gradients already present. */
  lemma {:induction false} NeuronGradients(w: real, b: real, x: real, g0: seq<real>, topo: seq<nat>)
    requires |g0| == 5 && IsTopoOrder(NeuronGraph(w, b, x), 4, topo)
    ensures BackwardGrads(NeuronGraph(w, b, x), g0, 4, topo) ==
            [g0[0] + x * (g0[3] + 1.0), g0[1] + 1.0, g0[2] + w * (g0[3] + 1.0), g0[3] + 1.0, 1.0]
  {
    var nodes := NeuronGraph(w, b, x);
    assert Reach(nodes, 4) == {0, 1, 2, 3, 4} by {
      assert Reach(nodes, 3) == {0, 2, 3};
    }
    BackwardSolvesChainRule(nodes, g0, 4, topo);
    BackwardRootIsOne(nodes, g0, 4, topo);
    var start := g0[4 := 1.0];
    assert start[0] == g0[0] && start[1] == g0[1] && start[2] == g0[2] && start[3] == g0[3];
    var final := BackwardGrads(nodes, g0, 4, topo);
    NeuronShares(w, b, x, Reach(nodes, 4), start, final);
    assert final[0] == g0[0] + x * (g0[3] + 1.0);
    assert final[2] == g0[2] + w * (g0[3] + 1.0);
  }

  /** `zero_grad()` on the neuron with weight node 0 and bias node 1 resets those two grads only. */
  lemma {:induction false} NeuronReset(g: seq<real>)
    requires |g| == 5
    ensures NN.ZeroedAt(g, NN.Parameters(NN.Unit(NN.Neuron([0], 1)))) == [0.0, 0.0, g[2], g[3], g[4]]
  {
    assert NN.Parameters(NN.Unit(NN.Neuron([0], 1))) == [0, 1];
  }

  /** The chain-rule solution on the neuron graph from any starting gradients. */
  lemma {:induction false} NeuronShares(w: real, b: real, x: real, within: set<nat>, start: seq<real>, g: seq<real>)
    requires within == {0, 1, 2, 3, 4} && |start| == 5
    requires SolvesChainRule(NeuronGraph(w, b, x), within, start, g) && g[4] == 1.0
    ensures g == [start[0] + x * (start[3] + 1.0), start[1] + 1.0, start[2] + w * (start[3] + 1.0),
                  start[3] + 1.0, 1.0]
  {
    var nodes := NeuronGraph(w, b, x);
    OneFeeder(nodes, within, start, g, 4, 3);
    OneFeeder(nodes, within, start, g, 4, 1);
    assert g[3] == start[3] + 1.0 * 1.0 && g[1] == start[1] + 1.0 * 1.0;
    OneFeeder(nodes, within, start, g, 3, 0);
    OneFeeder(nodes, within, start, g, 3, 2);
    assert g[0] == start[0] + x * g[3] && g[2] == start[2] + w * g[3];
    assert g[3] == start[3] + 1.0;
    assert g[0] == start[0] + x * (start[3] + 1.0);
    assert g[2] == start[2] + w * (start[3] + 1.0);
    assert g[1] == start[1] + 1.0;
    assert |g| == 5;
  }
}
