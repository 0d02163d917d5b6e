/**
 * What `backward()` computes (michigrad/engine.py): properties of the local
 * rules, of the reverse topological order and of the gradients left behind,
 * stated over `RunRules`, the specification `Graph.Backward` is proved
 * against.
 */
module Backprop {
  import opened Engine

  /** `x * x` records one operand: `set((self, other))` keeps a repeated node once. */
  lemma {:induction false} SquareHasOneOperand(a: nat)
    ensures Operands(Op.Mul(a, a)) == {a} && |Operands(Op.Mul(a, a))| == 1
  {
  }

  /** A rule only touches its own operands. */
  lemma {:induction false} LocalOnlyOnOperands(nodes: seq<Node>, u: nat, v: nat)
    requires Linked(nodes) && u < |nodes|
    requires v !in Operands(nodes[u].op)
    ensures Local(nodes, u, v) == 0.0
  {
  }

  /**
   * The `+=` statements of a rule, run in order, add to every node exactly
   * its partial derivative times the consumer's gradient; a node used in
   * both operand slots gets both contributions.
   */
  lemma {:induction false} FireIsLocal(nodes: seq<Node>, grad: seq<real>, u: nat)
    requires Linked(nodes) && |grad| == |nodes| && u < |nodes|
    ensures forall v :: 0 <= v < |grad| ==>
              Fire(nodes, grad, u)[v] == grad[v] + Local(nodes, u, v) * grad[u]
  {
    forall v | 0 <= v < |grad|
      ensures Fire(nodes, grad, u)[v] == grad[v] + Local(nodes, u, v) * grad[u]
    {
      FireIsLocalAt(nodes, grad, u, v);
    }
  }

  lemma {:induction false} FireIsLocalAt(nodes: seq<Node>, grad: seq<real>, u: nat, v: nat)
    requires Linked(nodes) && |grad| == |nodes| && u < |nodes| && v < |grad|
    ensures Fire(nodes, grad, u)[v] == grad[v] + Local(nodes, u, v) * grad[u]
  {
    assert LinksBack(nodes, u);
    match nodes[u].op
    case Leaf =>
    case Add(l, r) => FireIsLocalAdd(nodes, grad, u, v, l, r);
    case Mul(l, r) => FireIsLocalMul(nodes, grad, u, v, l, r);
    case Pow(b, k) => FireIsLocalPow(nodes, grad, u, v, b, k);
    case Relu(a) => FireIsLocalOne(nodes, grad, u, v, a);
    case Tanh(a) => FireIsLocalOne(nodes, grad, u, v, a);
    case Sigmoid(a) => FireIsLocalOne(nodes, grad, u, v, a);
    case Exp(a) => FireIsLocalOne(nodes, grad, u, v, a);
  }

  lemma {:induction false} FireIsLocalAdd(nodes: seq<Node>, grad: seq<real>, u: nat, v: nat, l: nat, r: nat)
    requires Linked(nodes) && |grad| == |nodes| && u < |nodes| && v < |grad|
    requires nodes[u].op == Op.Add(l, r) && l < u && r < u
    ensures Fire(nodes, grad, u)[v] == grad[v] + Local(nodes, u, v) * grad[u]
  {
    var g := grad[u];
    assert Fire(nodes, grad, u)[v] == Bump(Bump(grad, l, g), r, g)[v];
    assert Local(nodes, u, v) == (if l == v then 1.0 else 0.0) + (if r == v then 1.0 else 0.0);
  }

  /** The rules of the one-operand nodes: the operand `a` receives its partial derivative times `out.grad`. */
  lemma {:induction false} FireIsLocalOne(nodes: seq<Node>, grad: seq<real>, u: nat, v: nat, a: nat)
    requires Linked(nodes) && |grad| == |nodes| && u < |nodes| && v < |grad| && a < u
    requires nodes[u].op == Op.Relu(a) || nodes[u].op == Op.Tanh(a) ||
             nodes[u].op == Op.Sigmoid(a) || nodes[u].op == Op.Exp(a)
    ensures Fire(nodes, grad, u)[v] == grad[v] + Local(nodes, u, v) * grad[u]
  {
    var d, g := nodes[u].data, grad[u];
    var c := if nodes[u].op.Relu? then (if d > 0.0 then 1.0 else 0.0)
             else if nodes[u].op.Tanh? then 1.0 - d * d
             else if nodes[u].op.Sigmoid? then d * (1.0 - d)
             else d;
    assert Fire(nodes, grad, u)[v] == Bump(grad, a, c * g)[v];
    assert Local(nodes, u, v) == if a == v then c else 0.0;
  }

  lemma {:induction false} FireIsLocalMul(nodes: seq<Node>, grad: seq<real>, u: nat, v: nat, l: nat, r: nat)
    requires Linked(nodes) && |grad| == |nodes| && u < |nodes| && v < |grad|
    requires nodes[u].op == Op.Mul(l, r) && l < u && r < u
    ensures Fire(nodes, grad, u)[v] == grad[v] + Local(nodes, u, v) * grad[u]
  {
    var g, x, y := grad[u], nodes[l].data, nodes[r].data;
    assert Fire(nodes, grad, u)[v] == Bump(Bump(grad, l, y * g), r, x * g)[v];
    assert Local(nodes, u, v) == (if l == v then y else 0.0) + (if r == v then x else 0.0);
    if l == v && r == v {
      assert (y + x) * g == y * g + x * g;
    }
  }

  lemma {:induction false} FireIsLocalPow(nodes: seq<Node>, grad: seq<real>, u: nat, v: nat, b: nat, k: int)
    requires Linked(nodes) && |grad| == |nodes| && u < |nodes| && v < |grad|
    requires nodes[u].op == Op.Pow(b, k) && b < u && (k >= 0 || nodes[b].data != 0.0)
    ensures Fire(nodes, grad, u)[v] == grad[v] + Local(nodes, u, v) * grad[u]
  {
    assert Fire(nodes, grad, u)[v] == Bump(grad, b, PowSlope(nodes[b].data, k) * grad[u])[v];
  }

  /** A rule leaves the gradient of every non-operand alone, its own node's included. */
  lemma {:induction false} FireFrame(nodes: seq<Node>, grad: seq<real>, u: nat, w: nat)
    requires Linked(nodes) && |grad| == |nodes| && u < |nodes| && w < |nodes|
    requires w !in Operands(nodes[u].op)
    ensures Fire(nodes, grad, u)[w] == grad[w]
  {
    FireIsLocal(nodes, grad, u);
    LocalOnlyOnOperands(nodes, u, w);
  }

  /** No rule in `order` feeds a node whose rule has already run (or is running). */
  ghost predicate ConsumersFirst(nodes: seq<Node>, order: seq<nat>)
    requires InArena(nodes, order)
  {
    forall i, j :: 0 <= i <= j < |order| ==> order[i] !in Operands(nodes[order[j]].op)
  }

  lemma {:induction false} RunRulesFrame(nodes: seq<Node>, grad: seq<real>, order: seq<nat>, w: nat)
    requires Linked(nodes) && |grad| == |nodes| && InArena(nodes, order) && w < |nodes|
    requires forall i :: 0 <= i < |order| ==> w !in Operands(nodes[order[i]].op)
    ensures RunRules(nodes, grad, order)[w] == grad[w]
    decreases |order|
  {
    if order != [] {
      FireFrame(nodes, grad, order[0], w);
      RunRulesFrame(nodes, Fire(nodes, grad, order[0]), order[1..], w);
    }
  }

  lemma {:induction false} RunRulesSplit(nodes: seq<Node>, grad: seq<real>, order: seq<nat>, j: nat)
    requires Linked(nodes) && |grad| == |nodes| && InArena(nodes, order) && j <= |order|
    ensures InArena(nodes, order[..j]) && InArena(nodes, order[j..])
    ensures RunRules(nodes, grad, order) == RunRules(nodes, RunRules(nodes, grad, order[..j]), order[j..])
    decreases j
  {
    if j > 0 {
      assert order[1..][..j - 1] == order[..j][1..];
      assert order[1..][j - 1..] == order[j..];
      RunRulesSplit(nodes, Fire(nodes, grad, order[0]), order[1..], j - 1);
    }
  }

  /**
   * A node's gradient is complete when its own rule fires: the rules after
   * it never add to it, so the value it propagates is its final gradient.
   */
  lemma {:induction false} GradCompleteBeforeRuleFires(nodes: seq<Node>, start: seq<real>, order: seq<nat>, j: nat)
    requires Linked(nodes) && |start| == |nodes| && InArena(nodes, order)
    requires ConsumersFirst(nodes, order) && j < |order|
    ensures InArena(nodes, order[..j])
    ensures RunRules(nodes, start, order[..j])[order[j]] == RunRules(nodes, start, order)[order[j]]
  {
    RunRulesSplit(nodes, start, order, j);
    var rest := order[j..];
    forall i | 0 <= i < |rest| ensures order[j] !in Operands(nodes[rest[i]].op) {
      assert rest[i] == order[j + i];
    }
    RunRulesFrame(nodes, RunRules(nodes, start, order[..j]), rest, order[j]);
  }

  /** The reverse of a `build_topo` order runs every consumer's rule before its operands'. */
  lemma {:induction false} ReversedTopoOrder(nodes: seq<Node>, root: nat, topo: seq<nat>)
    requires Linked(nodes) && root < |nodes| && IsTopoOrder(nodes, root, topo)
    ensures InArena(nodes, Reverse(topo)) && NoDup(Reverse(topo))
    ensures ConsumersFirst(nodes, Reverse(topo))
    ensures Elems(Reverse(topo)) == Reach(nodes, root)
    ensures |Reverse(topo)| > 0 && Reverse(topo)[0] == root
  {
    var n := |topo|;
    var rev := Reverse(topo);
    forall i, j | 0 <= i <= j < n ensures rev[i] !in Operands(nodes[rev[j]].op) {
      assert rev[i] == topo[n - 1 - i] && rev[j] == topo[n - 1 - j];
    }
    forall w ensures w in Elems(rev) <==> w in Reach(nodes, root) {
      if w in topo {
        var k :| 0 <= k < n && topo[k] == w;
        assert rev[n - 1 - k] == w;
      }
    }
  }

  /**
   * The gradient that the rules of the nodes in `within` (those below `n`)
   * send to `v`, each consumer's share weighted by that consumer's gradient.
   */
  function Inflow(nodes: seq<Node>, within: set<nat>, v: nat, grad: seq<real>, n: nat): real
    requires Linked(nodes) && |grad| == |nodes| && n <= |nodes|
  {
    if n == 0 then 0.0
    else Inflow(nodes, within, v, grad, n - 1) +
         (if n - 1 in within then Local(nodes, n - 1, v) * grad[n - 1] else 0.0)
  }

  lemma {:induction false} InflowInsert(nodes: seq<Node>, within: set<nat>, x: nat, v: nat, grad: seq<real>, n: nat)
    requires Linked(nodes) && |grad| == |nodes| && n <= |nodes|
    requires x !in within
    ensures Inflow(nodes, within + {x}, v, grad, n) ==
            Inflow(nodes, within, v, grad, n) + (if x < n then Local(nodes, x, v) * grad[x] else 0.0)
    decreases n
  {
    if n > 0 {
      InflowInsert(nodes, within, x, v, grad, n - 1);
    }
  }

  lemma {:induction false} InflowEmpty(nodes: seq<Node>, v: nat, grad: seq<real>, n: nat)
    requires Linked(nodes) && |grad| == |nodes| && n <= |nodes|
    ensures Inflow(nodes, {}, v, grad, n) == 0.0
    decreases n
  {
    if n > 0 {
      InflowEmpty(nodes, v, grad, n - 1);
    }
  }

  /** Consumers that do not feed `v` can be dropped from its inflow. */
  lemma {:induction false} InflowOnly(nodes: seq<Node>, within: set<nat>, feeders: set<nat>, v: nat, grad: seq<real>, n: nat)
    requires Linked(nodes) && |grad| == |nodes| && n <= |nodes|
    requires feeders <= within
    requires forall u :: u in within - feeders && u < n ==> Local(nodes, u, v) == 0.0
    ensures Inflow(nodes, within, v, grad, n) == Inflow(nodes, feeders, v, grad, n)
    decreases n
  {
    if n > 0 {
      InflowOnly(nodes, within, feeders, v, grad, n - 1);
    }
  }

  /** The inflow to `v` reads only the gradients of nodes created after `v`. */
  lemma {:induction false} InflowReadsAbove(nodes: seq<Node>, within: set<nat>, v: nat, g1: seq<real>, g2: seq<real>, n: nat)
    requires Linked(nodes) && |g1| == |nodes| && |g2| == |nodes| && n <= |nodes|
    requires forall u :: v < u < n ==> g1[u] == g2[u]
    ensures Inflow(nodes, within, v, g1, n) == Inflow(nodes, within, v, g2, n)
    decreases n
  {
    if n > 0 {
      InflowReadsAbove(nodes, within, v, g1, g2, n - 1);
    }
  }

  /**
   * The chain rule, as the rules of `order` realise it: each node ends with
   * its starting gradient plus, for every consumer in `order`, the partial
   * derivative times that consumer's final gradient.
   */
  lemma {:induction false} RunRulesChainRule(nodes: seq<Node>, start: seq<real>, order: seq<nat>, v: nat)
    requires Linked(nodes) && |start| == |nodes| && InArena(nodes, order)
    requires NoDup(order) && ConsumersFirst(nodes, order) && v < |nodes|
    ensures var final := RunRules(nodes, start, order);
            final[v] == start[v] + Inflow(nodes, Elems(order), v, final, |nodes|)
    decreases |order|
  {
    if order == [] {
      InflowEmpty(nodes, v, start, |nodes|);
      assert Elems(order) == {};
    } else {
      SplitFirst(nodes, order);
      RunRulesChainRule(nodes, Fire(nodes, start, order[0]), order[1..], v);
      ChainRuleCons(nodes, start, order[0], order[1..], v);
      assert RunRules(nodes, start, order) == RunRules(nodes, Fire(nodes, start, order[0]), order[1..]);
    }
  }

  /**
   * The chain rule for the rules after the first one, `o`, gives it for the
   * whole order, provided none of the later rules feeds `o`.
   */
  lemma {:induction false} ChainRuleCons(nodes: seq<Node>, start: seq<real>, o: nat, rest: seq<nat>, v: nat)
    requires Linked(nodes) && |start| == |nodes| && o < |nodes| && InArena(nodes, rest) && v < |nodes|
    requires o !in Elems(rest)
    requires forall i :: 0 <= i < |rest| ==> o !in Operands(nodes[rest[i]].op)
    requires var s1 := Fire(nodes, start, o);
             var f1 := RunRules(nodes, s1, rest);
             f1[v] == s1[v] + Inflow(nodes, Elems(rest), v, f1, |nodes|)
    ensures var final := RunRules(nodes, Fire(nodes, start, o), rest);
            final[v] == start[v] + Inflow(nodes, Elems(rest) + {o}, v, final, |nodes|)
  {
    FirstRuleKeepsOwn(nodes, start, o, rest);
    FireIsLocalAt(nodes, start, o, v);
    var s1 := Fire(nodes, start, o);
    ChainStep(nodes, Elems(rest), o, v, RunRules(nodes, s1, rest), start[o], s1[v], start[v]);
  }

  /** One more consumer `o` in the order adds its share to `v`'s inflow. */
  lemma {:induction false} ChainStep(nodes: seq<Node>, within: set<nat>, o: nat, v: nat, final: seq<real>, go: real, mid: real, initial: real)
    requires Linked(nodes) && |final| == |nodes| && o < |nodes| && v < |nodes| && o !in within
    requires final[v] == mid + Inflow(nodes, within, v, final, |nodes|)
    requires final[o] == go && mid == initial + Local(nodes, o, v) * go
    ensures final[v] == initial + Inflow(nodes, within + {o}, v, final, |nodes|)
  {
    InflowInsert(nodes, within, o, v, final, |nodes|);
  }

  /** No later rule feeds the first node of the order, so its gradient is final once its rule runs. */
  lemma {:induction false} FirstRuleKeepsOwn(nodes: seq<Node>, start: seq<real>, o: nat, rest: seq<nat>)
    requires Linked(nodes) && |start| == |nodes| && o < |nodes| && InArena(nodes, rest)
    requires forall i :: 0 <= i < |rest| ==> o !in Operands(nodes[rest[i]].op)
    ensures RunRules(nodes, Fire(nodes, start, o), rest)[o] == start[o]
  {
    OperandsBelow(nodes, o);
    FireFrame(nodes, start, o, o);
    RunRulesFrame(nodes, Fire(nodes, start, o), rest, o);
  }

  /** Taking the first rule off an order that runs consumers first. */
  lemma {:induction false} SplitFirst(nodes: seq<Node>, order: seq<nat>)
    requires InArena(nodes, order) && NoDup(order) && ConsumersFirst(nodes, order) && order != []
    ensures InArena(nodes, order[1..]) && NoDup(order[1..]) && ConsumersFirst(nodes, order[1..])
    ensures forall i :: 0 <= i < |order[1..]| ==> order[0] !in Operands(nodes[order[1..][i]].op)
    ensures order[0] !in Elems(order[1..])
    ensures Elems(order) == Elems(order[1..]) + {order[0]}
  {
    var o, rest := order[0], order[1..];
    assert forall i :: 0 <= i < |rest| ==> rest[i] == order[i + 1];
    assert order == [o] + rest;
  }

  /** `backward()` from `root`: the gradients it leaves, for the order `topo` it used. */
  ghost function BackwardGrads(nodes: seq<Node>, grad0: seq<real>, root: nat, topo: seq<nat>): seq<real>
    requires Linked(nodes) && |grad0| == |nodes| && root < |nodes| && IsTopoOrder(nodes, root, topo)
  {
    ReversedTopoOrder(nodes, root, topo);
    RunRules(nodes, grad0[root := 1.0], Reverse(topo))
  }

  /**
   * Reverse-mode differentiation: after `backward()` every node's gradient is
   * its previous value (1 for the root, which is assigned, not added to) plus
   * the sum, over the nodes reachable from the root, of each one's partial
   * derivative with respect to it times that node's own final gradient.
   */
  lemma {:induction false} BackwardChainRule(nodes: seq<Node>, grad0: seq<real>, root: nat, topo: seq<nat>, v: nat)
    requires Linked(nodes) && |grad0| == |nodes| && root < |nodes| && IsTopoOrder(nodes, root, topo)
    requires v < |nodes|
    ensures var final := BackwardGrads(nodes, grad0, root, topo);
            |final| == |nodes| &&
            final[v] == grad0[root := 1.0][v] + Inflow(nodes, Reach(nodes, root), v, final, |nodes|)
  {
    ReversedTopoOrder(nodes, root, topo);
    RunRulesChainRule(nodes, grad0[root := 1.0], Reverse(topo), v);
  }

  /** Nothing reachable from the root consumes it, so its gradient stays exactly 1. */
  lemma {:induction false} BackwardRootIsOne(nodes: seq<Node>, grad0: seq<real>, root: nat, topo: seq<nat>)
    requires Linked(nodes) && |grad0| == |nodes| && root < |nodes| && IsTopoOrder(nodes, root, topo)
    ensures BackwardGrads(nodes, grad0, root, topo)[root] == 1.0
  {
    var final := BackwardGrads(nodes, grad0, root, topo);
    BackwardChainRule(nodes, grad0, root, topo, root);
    ReachBounded(nodes, root);
    assert forall u :: u in Reach(nodes, root) - {} && u < |nodes| ==> Local(nodes, u, root) == 0.0;
    InflowOnly(nodes, Reach(nodes, root), {}, root, final, |nodes|);
    InflowEmpty(nodes, root, final, |nodes|);
  }

  /**
   * `backward()` on a `Value` no operation built: the only node reached is
   * the root itself, whose rule does nothing, so the root's grad becomes 1
   * and every other grad stays as it was.
   */
  lemma {:induction false} BackwardOnLeaf(nodes: seq<Node>, grad0: seq<real>, root: nat, topo: seq<nat>)
    requires Linked(nodes) && |grad0| == |nodes| && root < |nodes| && IsTopoOrder(nodes, root, topo)
    requires nodes[root].op == Leaf
    ensures topo == [root]
    ensures BackwardGrads(nodes, grad0, root, topo) == grad0[root := 1.0]
  {
    assert Reach(nodes, root) == {root};
    forall i | 0 <= i < |topo| ensures topo[i] == root {
      assert topo[i] in Reach(nodes, root);
    }
    if |topo| > 1 {
      Distinct(topo, 0, 1);
      assert false;
    }
    assert topo == [root];
    assert Reverse(topo)[0] == root;
    assert Reverse(topo) == [root];
    assert RunRules(nodes, grad0[root := 1.0], [root]) == Fire(nodes, grad0[root := 1.0], root);
  }

  lemma {:induction false} Distinct(s: seq<nat>, i: int, j: int)
    requires NoDup(s) && 0 <= i < j < |s|
    ensures s[i] != s[j]
  {
  }

  /** Gradients that satisfy the chain-rule equations for the same consumers and starting values. */
  ghost predicate SolvesChainRule(nodes: seq<Node>, within: set<nat>, start: seq<real>, g: seq<real>)
    requires Linked(nodes)
  {
    |start| == |nodes| && |g| == |nodes| &&
    forall v :: 0 <= v < |nodes| ==> g[v] == start[v] + Inflow(nodes, within, v, g, |nodes|)
  }

  /** The chain-rule equations have one solution: it is fixed from the last node down. */
  lemma {:induction false} ChainRuleUnique(nodes: seq<Node>, within: set<nat>, start: seq<real>, g1: seq<real>, g2: seq<real>)
    requires Linked(nodes)
    requires SolvesChainRule(nodes, within, start, g1) && SolvesChainRule(nodes, within, start, g2)
    ensures g1 == g2
  {
    AgreeFrom(nodes, within, start, g1, g2, 0);
  }

  lemma {:induction false} AgreeFrom(nodes: seq<Node>, within: set<nat>, start: seq<real>, g1: seq<real>, g2: seq<real>, k: nat)
    requires Linked(nodes) && k <= |nodes|
    requires SolvesChainRule(nodes, within, start, g1) && SolvesChainRule(nodes, within, start, g2)
    ensures forall v :: k <= v < |nodes| ==> g1[v] == g2[v]
    decreases |nodes| - k
  {
    if k < |nodes| {
      AgreeFrom(nodes, within, start, g1, g2, k + 1);
      InflowReadsAbove(nodes, within, k, g1, g2, |nodes|);
    }
  }

  /**
   * The gradients do not depend on the order in which `build_topo` visits a
   * node's operands (Python set order): any two orders it may produce give
   * the same result.
   */
  lemma {:induction false} BackwardOrderIndependent(nodes: seq<Node>, grad0: seq<real>, root: nat, t1: seq<nat>, t2: seq<nat>)
    requires Linked(nodes) && |grad0| == |nodes| && root < |nodes|
    requires IsTopoOrder(nodes, root, t1) && IsTopoOrder(nodes, root, t2)
    ensures BackwardGrads(nodes, grad0, root, t1) == BackwardGrads(nodes, grad0, root, t2)
  {
    var g1 := BackwardGrads(nodes, grad0, root, t1);
    var g2 := BackwardGrads(nodes, grad0, root, t2);
    forall v | 0 <= v < |nodes|
      ensures g1[v] == grad0[root := 1.0][v] + Inflow(nodes, Reach(nodes, root), v, g1, |nodes|)
      ensures g2[v] == grad0[root := 1.0][v] + Inflow(nodes, Reach(nodes, root), v, g2, |nodes|)
    {
      BackwardChainRule(nodes, grad0, root, t1, v);
      BackwardChainRule(nodes, grad0, root, t2, v);
    }
    ChainRuleUnique(nodes, Reach(nodes, root), grad0[root := 1.0], g1, g2);
  }

  lemma {:induction false} InflowOne(nodes: seq<Node>, x: nat, v: nat, grad: seq<real>, n: nat)
    requires Linked(nodes) && |grad| == |nodes| && x < n <= |nodes|
    ensures Inflow(nodes, {x}, v, grad, n) == Local(nodes, x, v) * grad[x]
  {
    assert {} + {x} == {x};
    InflowInsert(nodes, {}, x, v, grad, n);
    InflowEmpty(nodes, v, grad, n);
  }

  lemma {:induction false} InflowTwo(nodes: seq<Node>, x: nat, y: nat, v: nat, grad: seq<real>, n: nat)
    requires Linked(nodes) && |grad| == |nodes| && x < n <= |nodes| && y < n && x != y
    ensures Inflow(nodes, {x, y}, v, grad, n) == Local(nodes, x, v) * grad[x] + Local(nodes, y, v) * grad[y]
  {
    assert {x} + {y} == {x, y};
    InflowInsert(nodes, {x}, y, v, grad, n);
    InflowOne(nodes, x, v, grad, n);
  }

  /** `backward()` leaves a solution of the chain-rule equations over the nodes reachable from the root. */
  lemma {:induction false} BackwardSolvesChainRule(nodes: seq<Node>, grad0: seq<real>, root: nat, topo: seq<nat>)
    requires Linked(nodes) && |grad0| == |nodes| && root < |nodes| && IsTopoOrder(nodes, root, topo)
    ensures SolvesChainRule(nodes, Reach(nodes, root), grad0[root := 1.0], BackwardGrads(nodes, grad0, root, topo))
  {
    forall v | 0 <= v < |nodes|
      ensures BackwardGrads(nodes, grad0, root, topo)[v] == grad0[root := 1.0][v] +
                Inflow(nodes, Reach(nodes, root), v, BackwardGrads(nodes, grad0, root, topo), |nodes|)
    {
      BackwardChainRule(nodes, grad0, root, topo, v);
    }
  }

  /** In a solution of the chain rule, a node that only `u` consumes gets `u`'s share and nothing else. */
  lemma {:induction false} OneFeeder(nodes: seq<Node>, within: set<nat>, start: seq<real>, g: seq<real>, u: nat, v: nat)
    requires Linked(nodes) && SolvesChainRule(nodes, within, start, g)
    requires v < |nodes| && u < |nodes| && u in within
    requires forall w :: w in within && w < |nodes| && w != u ==> Local(nodes, w, v) == 0.0
    ensures g[v] == start[v] + Local(nodes, u, v) * g[u]
  {
    InflowOnly(nodes, within, {u}, v, g, |nodes|);
    InflowOne(nodes, u, v, g, |nodes|);
  }

  /** The fan-out case: a node that `u1` and `u2` both consume receives both shares. */
  lemma {:induction false} TwoFeeders(nodes: seq<Node>, within: set<nat>, start: seq<real>, g: seq<real>, u1: nat, u2: nat, v: nat)
    requires Linked(nodes) && SolvesChainRule(nodes, within, start, g)
    requires v < |nodes| && u1 < |nodes| && u2 < |nodes| && u1 in within && u2 in within && u1 != u2
    requires forall w :: w in within && w < |nodes| && w != u1 && w != u2 ==> Local(nodes, w, v) == 0.0
    ensures g[v] == start[v] + (Local(nodes, u1, v) * g[u1] + Local(nodes, u2, v) * g[u2])
  {
    InflowOnly(nodes, within, {u1, u2}, v, g, |nodes|);
    InflowTwo(nodes, u1, u2, v, g, |nodes|);
  }
}
