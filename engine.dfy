/**
 * The scalar autodiff engine of michigrad (michigrad/engine.py).
 *
 * Every `Value` object lives in an arena: a `Graph` holds the nodes in
 * creation order together with their gradient accumulators. An operand is
 * referred to by its index, and a node's operands always have smaller
 * indices than the node itself, so the operand relation is acyclic by
 * construction. The per-node `_backward` closure is represented by the tag
 * `Op` that says which operation built the node; `Fire` applies the rule
 * that closure would run.
 */
module Engine {
  import opened Wrappers

  /** The operation that produced a node (`_op`), with the operands the rule needs. */
  datatype Op =
    | Leaf
    | Add(l: nat, r: nat)
    | Mul(l: nat, r: nat)
    | Pow(base: nat, k: int)
    | Relu(arg: nat)
    | Tanh(arg: nat)
    | Sigmoid(arg: nat)
    | Exp(arg: nat)

  /** The immutable part of a `Value`: its forward `data` and how it was built. */
  datatype Node = Node(data: real, op: Op)

  /** A right-hand operand of `+` or `*`: another node, or a plain number. */
  datatype Operand = Ref(idx: nat) | Lit(x: real)

  /** An exponent handed to `**`: a number (integers only here), or a node. */
  datatype Exponent = Num(k: int) | NodeExp(idx: nat)

  datatype EngineError =
    | NonNumericExponent   // the `isinstance` assertion of `__pow__`
    | ZeroToNegativePower  // Python's ZeroDivisionError for `0 ** k`, k < 0

  /**
   * The `_children` tuple given to the constructor. The model reads the
   * operands through `Operands`, the set `_prev` made from this tuple.
   */
  function Children(op: Op): seq<nat>
  {
    match op
    case Leaf => []
    case Add(l, r) => [l, r]
    case Mul(l, r) => [l, r]
    case Pow(b, _) => [b]
    case Relu(a) => [a]
    case Tanh(a) => [a]
    case Sigmoid(a) => [a]
    case Exp(a) => [a]
  }

  /** The set `_prev`: the operands, with a repeated operand kept once. */
  function Operands(op: Op): set<nat>
  {
    match op
    case Leaf => {}
    case Add(l, r) => {l, r}
    case Mul(l, r) => {l, r}
    case Pow(b, _) => {b}
    case Relu(a) => {a}
    case Tanh(a) => {a}
    case Sigmoid(a) => {a}
    case Exp(a) => {a}
  }

  /** `_prev` holds exactly the members of `_children`. */
  lemma {:induction false} OperandsAreChildren(op: Op)
    ensures forall c :: c in Operands(op) <==> c in Children(op)
  {
    match op
    case Leaf =>
    case Add(l, r) => assert Children(op) == [l, r];
    case Mul(l, r) => assert Children(op) == [l, r];
    case Pow(b, _) => assert Children(op) == [b];
    case Relu(a) => assert Children(op) == [a];
    case Tanh(a) => assert Children(op) == [a];
    case Sigmoid(a) => assert Children(op) == [a];
    case Exp(a) => assert Children(op) == [a];
  }

  /** `x ** k` for an integer exponent, over the reals. */
  function Power(x: real, k: int): (r: real)
    requires k >= 0 || x != 0.0
    ensures x != 0.0 ==> r != 0.0
    ensures x == 0.0 && k > 0 ==> r == 0.0
    ensures k == 1 ==> r == x
    decreases if k >= 0 then k else -k
  {
    if k == 0 then 1.0
    else if k > 0 then x * Power(x, k - 1)
    else Power(x, k + 1) / x
  }

  /**
   * The factor of the power rule: the exponent times the base to one less. For the
   * exponent 0 the factor is 0, whatever the base.
   */
  function PowSlope(x: real, k: int): (r: real)
    requires k >= 1 || k == 0 || x != 0.0
    ensures k == 1 ==> r == 1.0
    ensures k == 2 ==> r == 2.0 * x
  {
    if k == 0 then 0.0 else (k as real) * Power(x, k - 1)
  }

  /** The ReLU of `x`: 0 below zero, `x` itself otherwise (so 0 maps to 0). */
  function ReluOf(x: real): (r: real)
    ensures r >= 0.0 && r >= x
    ensures r == 0.0 || r == x
  {
    if x < 0.0 then 0.0 else x
  }

  /**
   * Node `i` refers only to nodes created before it, and a negative power
   * has a nonzero base (Python raises before building such a node).
   */
  predicate LinksBack(nodes: seq<Node>, i: nat)
    requires i < |nodes|
  {
    match nodes[i].op
    case Leaf => true
    case Add(l, r) => l < i && r < i
    case Mul(l, r) => l < i && r < i
    case Pow(b, k) => b < i && (k >= 0 || nodes[b].data != 0.0)
    case Relu(a) => a < i
    case Tanh(a) => a < i
    case Sigmoid(a) => a < i
    case Exp(a) => a < i
  }

  /**
   * Node `i`'s data is what its operation computes from its operands' data
   * (the transcendental ones excepted: their forward value comes from
   * outside the model).
   */
  predicate Computed(nodes: seq<Node>, i: nat)
    requires i < |nodes| && LinksBack(nodes, i)
  {
    var d := nodes[i].data;
    match nodes[i].op
    case Leaf => true
    case Add(l, r) => d == nodes[l].data + nodes[r].data
    case Mul(l, r) => d == nodes[l].data * nodes[r].data
    case Pow(b, k) => d == Power(nodes[b].data, k)
    case Relu(a) => d == ReluOf(nodes[a].data)
    case Tanh(_) => true
    case Sigmoid(_) => true
    case Exp(_) => true
  }

  /** Node `i` was built by one of the constructors of `Graph`. */
  predicate NodeOk(nodes: seq<Node>, i: nat)
    requires i < |nodes|
  {
    LinksBack(nodes, i) && Computed(nodes, i)
  }

  /** The operand relation of the arena points only backwards (all that backward needs). */
  predicate Linked(nodes: seq<Node>)
  {
    forall i :: 0 <= i < |nodes| ==> LinksBack(nodes, i)
  }

  predicate WellFormed(nodes: seq<Node>)
  {
    Linked(nodes) && forall i :: 0 <= i < |nodes| ==> Computed(nodes, i)
  }

  lemma {:induction false} OperandsBelow(nodes: seq<Node>, i: nat)
    requires Linked(nodes) && i < |nodes|
    ensures forall c :: c in Operands(nodes[i].op) ==> c < i
  {
    assert LinksBack(nodes, i);
  }

  /**
   * How much one unit of gradient on node `u` adds to node `v`: the partial
   * derivative of `u` with respect to `v`, summed over both operand slots
   * when `v` fills both (as in `x * x`).
   */
  function Local(nodes: seq<Node>, u: nat, v: nat): (r: real)
    requires Linked(nodes) && u < |nodes|
    ensures u <= v ==> r == 0.0
  {
    assert LinksBack(nodes, u);
    var d := nodes[u].data;
    match nodes[u].op
    case Leaf => 0.0
    case Add(l, r) => (if l == v then 1.0 else 0.0) + (if r == v then 1.0 else 0.0)
    case Mul(l, r) =>
      (if l == v then nodes[r].data else 0.0) + (if r == v then nodes[l].data else 0.0)
    case Pow(b, k) => if b == v then PowSlope(nodes[b].data, k) else 0.0
    case Relu(a) => if a == v && d > 0.0 then 1.0 else 0.0
    case Tanh(a) => if a == v then 1.0 - d * d else 0.0
    case Sigmoid(a) => if a == v then d * (1.0 - d) else 0.0
    case Exp(a) => if a == v then d else 0.0
  }

  /** `grad[i] += delta` */
  function Bump(grad: seq<real>, i: nat, delta: real): seq<real>
    requires i < |grad|
  {
    grad[i := grad[i] + delta]
  }

  /**
   * Node `u`'s `_backward()`: the `+=` statements of its closure, in the
   * closure's order, each reading the node's current gradient.
   */
  function Fire(nodes: seq<Node>, grad: seq<real>, u: nat): (r: seq<real>)
    requires Linked(nodes) && |grad| == |nodes| && u < |nodes|
    ensures |r| == |grad|
  {
    assert LinksBack(nodes, u);
    var g := grad[u];
    var d := nodes[u].data;
    match nodes[u].op
    case Leaf => grad
    case Add(l, r) => Bump(Bump(grad, l, g), r, g)
    case Mul(l, r) => Bump(Bump(grad, l, nodes[r].data * g), r, nodes[l].data * g)
    case Pow(b, k) => Bump(grad, b, PowSlope(nodes[b].data, k) * g)
    case Relu(a) => Bump(grad, a, if d > 0.0 then g else 0.0)
    case Tanh(a) => Bump(grad, a, (1.0 - d * d) * g)
    case Sigmoid(a) => Bump(grad, a, d * (1.0 - d) * g)
    case Exp(a) => Bump(grad, a, d * g)
  }

  predicate InArena(nodes: seq<Node>, s: seq<nat>)
  {
    forall i :: 0 <= i < |s| ==> s[i] < |nodes|
  }

  /** The rules of `order`'s nodes run one after the other. */
  function RunRules(nodes: seq<Node>, grad: seq<real>, order: seq<nat>): (r: seq<real>)
    requires Linked(nodes) && |grad| == |nodes| && InArena(nodes, order)
    ensures |r| == |grad|
    decreases |order|
  {
    if order == [] then grad else RunRules(nodes, Fire(nodes, grad, order[0]), order[1..])
  }

  lemma {:induction false} RunRulesSnoc(nodes: seq<Node>, grad: seq<real>, order: seq<nat>, u: nat)
    requires Linked(nodes) && |grad| == |nodes| && InArena(nodes, order) && u < |nodes|
    ensures InArena(nodes, order + [u])
    ensures RunRules(nodes, grad, order + [u]) == Fire(nodes, RunRules(nodes, grad, order), u)
    decreases |order|
  {
    if order != [] {
      assert (order + [u])[1..] == order[1..] + [u];
      RunRulesSnoc(nodes, Fire(nodes, grad, order[0]), order[1..], u);
    }
  }

  function Reverse(s: seq<nat>): (r: seq<nat>)
    ensures |r| == |s| && forall i :: 0 <= i < |s| ==> r[i] == s[|s| - 1 - i]
  {
    seq(|s|, i requires 0 <= i < |s| => s[|s| - 1 - i])
  }

  /** The nodes reachable from `v` through operand edges, `v` included. */
  function Reach(nodes: seq<Node>, v: nat): (r: set<nat>)
    requires Linked(nodes) && v < |nodes|
    ensures v in r
    decreases v
  {
    assert LinksBack(nodes, v);
    {v} + match nodes[v].op
      case Leaf => {}
      case Add(l, r) => Reach(nodes, l) + Reach(nodes, r)
      case Mul(l, r) => Reach(nodes, l) + Reach(nodes, r)
      case Pow(b, _) => Reach(nodes, b)
      case Relu(a) => Reach(nodes, a)
      case Tanh(a) => Reach(nodes, a)
      case Sigmoid(a) => Reach(nodes, a)
      case Exp(a) => Reach(nodes, a)
  }

  lemma {:induction false} ReachFacts(nodes: seq<Node>, v: nat)
    requires Linked(nodes) && v < |nodes|
    ensures v in Reach(nodes, v)
    ensures forall c :: c in Operands(nodes[v].op) ==> c < v && Reach(nodes, c) <= Reach(nodes, v)
    ensures forall w :: w in Reach(nodes, v) && w != v ==>
              exists c :: c in Operands(nodes[v].op) && w in Reach(nodes, c)
  {
    assert LinksBack(nodes, v);
    var R := Reach(nodes, v);
    match nodes[v].op
    case Leaf =>
    case Add(l, r) => ReachTwo(nodes, v, l, r, R, Reach(nodes, l), Reach(nodes, r));
    case Mul(l, r) => ReachTwo(nodes, v, l, r, R, Reach(nodes, l), Reach(nodes, r));
    case Pow(b, _) => ReachOne(nodes, v, b, R, Reach(nodes, b));
    case Relu(a) => ReachOne(nodes, v, a, R, Reach(nodes, a));
    case Tanh(a) => ReachOne(nodes, v, a, R, Reach(nodes, a));
    case Sigmoid(a) => ReachOne(nodes, v, a, R, Reach(nodes, a));
    case Exp(a) => ReachOne(nodes, v, a, R, Reach(nodes, a));
  }

  /** `Reach` through a node with one operand `a`. */
  lemma {:induction false} ReachOne(nodes: seq<Node>, v: nat, a: nat, R: set<nat>, A: set<nat>)
    requires Linked(nodes) && v < |nodes| && a < v
    requires R == Reach(nodes, v) && A == Reach(nodes, a)
    requires Operands(nodes[v].op) == {a} && R == {v} + A
    ensures forall c :: c in Operands(nodes[v].op) ==> c < v && Reach(nodes, c) <= R
    ensures forall w :: w in R && w != v ==> exists c :: c in Operands(nodes[v].op) && w in Reach(nodes, c)
  {
    forall c | c in Operands(nodes[v].op) ensures c < v && Reach(nodes, c) <= R {
      assert c == a;
    }
    forall w | w in R && w != v ensures exists c :: c in Operands(nodes[v].op) && w in Reach(nodes, c) {
      assert w in A;
    }
  }

  /** `Reach` through a node with operands `l` and `r`. */
  lemma {:induction false} ReachTwo(nodes: seq<Node>, v: nat, l: nat, r: nat, R: set<nat>, L: set<nat>, Rr: set<nat>)
    requires Linked(nodes) && v < |nodes| && l < v && r < v
    requires R == Reach(nodes, v) && L == Reach(nodes, l) && Rr == Reach(nodes, r)
    requires Operands(nodes[v].op) == {l, r} && R == {v} + (L + Rr)
    ensures forall c :: c in Operands(nodes[v].op) ==> c < v && Reach(nodes, c) <= R
    ensures forall w :: w in R && w != v ==> exists c :: c in Operands(nodes[v].op) && w in Reach(nodes, c)
  {
    assert L <= R && Rr <= R;
    forall c | c in Operands(nodes[v].op) ensures c < v && Reach(nodes, c) <= R {
      if c != l {
        assert c == r;
      }
    }
    forall w | w in R && w != v ensures exists c :: c in Operands(nodes[v].op) && w in Reach(nodes, c) {
      if w !in L {
        assert w in Rr;
      }
    }
  }

  lemma {:induction false} ReachBelow(nodes: seq<Node>, v: nat, w: nat)
    requires Linked(nodes) && v < |nodes| && w in Reach(nodes, v)
    ensures w <= v
    decreases v
  {
    ReachFacts(nodes, v);
    if w != v {
      var c :| c in Operands(nodes[v].op) && w in Reach(nodes, c);
      ReachBelow(nodes, c, w);
    }
  }

  predicate NoDup(s: seq<nat>)
  {
    forall i, j :: 0 <= i < j < |s| ==> s[i] != s[j]
  }

  /** Every operand of a listed node is listed earlier. */
  predicate OperandsFirst(nodes: seq<Node>, s: seq<nat>)
    requires InArena(nodes, s)
  {
    forall i :: 0 <= i < |s| ==> forall c :: c in Operands(nodes[s[i]].op) ==> c in s[..i]
  }

  /**
   * What `build_topo(root)` promises of `topo`: the nodes reachable from the
   * root, each exactly once, every node after its operands, the root last.
   */
  ghost predicate IsTopoOrder(nodes: seq<Node>, root: nat, topo: seq<nat>)
    requires Linked(nodes) && root < |nodes|
  {
    InArena(nodes, topo) && NoDup(topo) && OperandsFirst(nodes, topo) &&
    (forall w :: w in topo <==> w in Reach(nodes, root)) &&
    |topo| > 0 && topo[|topo| - 1] == root
  }

  function Elems(s: seq<nat>): set<nat>
  {
    set x | x in s
  }

  /** The `topo` list and `visited` set that `build_topo` threads through its recursion. */
  ghost predicate TopoState(nodes: seq<Node>, visited: set<nat>, topo: seq<nat>)
  {
    InArena(nodes, topo) && NoDup(topo) && OperandsFirst(nodes, topo) && Elems(topo) <= visited
  }

  /** A list closed under operands holds everything reachable from its members. */
  lemma {:induction false} ClosedHoldsReach(nodes: seq<Node>, topo: seq<nat>, v: nat)
    requires Linked(nodes) && InArena(nodes, topo) && OperandsFirst(nodes, topo)
    requires v < |nodes| && v in topo
    ensures Reach(nodes, v) <= Elems(topo)
    decreases v
  {
    ReachFacts(nodes, v);
    var i :| 0 <= i < |topo| && topo[i] == v;
    forall c | c in Operands(nodes[v].op)
      ensures Reach(nodes, c) <= Elems(topo)
    {
      assert c in topo[..i];
      ClosedHoldsReach(nodes, topo, c);
    }
  }

  /** `topo.append(v)` once all of `v`'s operands are listed keeps the state. */
  lemma {:induction false} AppendFinished(nodes: seq<Node>, visited: set<nat>, topo: seq<nat>, v: nat)
    requires Linked(nodes) && v < |nodes| && TopoState(nodes, visited, topo)
    requires v in visited && v !in topo && Operands(nodes[v].op) <= Elems(topo)
    ensures TopoState(nodes, visited, topo + [v])
    ensures Elems(topo + [v]) == Elems(topo) + {v}
  {
    var t := topo + [v];
    assert t[..|topo|] == topo;
    forall i | 0 <= i < |t| ensures forall c :: c in Operands(nodes[t[i]].op) ==> c in t[..i] {
      if i < |topo| {
        assert t[..i] == topo[..i];
      }
    }
  }

  /**
   * `build_topo(v)`: a post-order depth-first walk. It appends every node
   * reachable from `v` that is not yet visited, each after its operands.
   * The operands are taken in any order, as a Python set yields them.
   * The nodes visited but not yet listed are the callers still in progress,
   * all created after `v`.
   */
  method BuildTopo(nodes: seq<Node>, v: nat, visited: set<nat>, topo: seq<nat>)
    returns (visited': set<nat>, topo': seq<nat>)
    requires Linked(nodes) && v < |nodes|
    requires TopoState(nodes, visited, topo)
    requires forall w :: w in visited - Elems(topo) ==> v < w
    ensures TopoState(nodes, visited', topo')
    ensures topo <= topo'
    ensures visited' == visited + Reach(nodes, v)
    ensures Elems(topo') == Elems(topo) + Reach(nodes, v)
    ensures visited' - Elems(topo') == visited - Elems(topo)
    ensures v !in visited ==> |topo'| > 0 && topo'[|topo'| - 1] == v
    decreases v
  {
    ReachFacts(nodes, v);
    ReachBounded(nodes, v);
    if v in visited {
      assert v in visited - Elems(topo) ==> v < v;
      ClosedHoldsReach(nodes, topo, v);
      return visited, topo;
    }
    visited' := visited + {v};
    topo' := topo;
    var pending := Operands(nodes[v].op);
    WalkStart(nodes, v, visited, topo);
    while pending != {}
      invariant Walking(nodes, v, visited, topo, pending, visited', topo')
      decreases pending
    {
      var c :| c in pending;
      ghost var seen, listed := visited', topo';
      WalkNext(nodes, v, visited, topo, pending, seen, listed, c);
      visited', topo' := BuildTopo(nodes, c, visited', topo');
      WalkStep(nodes, v, visited, topo, pending, seen, listed, c, visited', topo');
      pending := pending - {c};
    }
    AppendFinished(nodes, visited', topo', v);
    WalkDone(nodes, v, visited, topo, visited', topo');
    topo' := topo' + [v];
  }

  /**
   * The state of the loop over `v`'s operands in `build_topo`: `v` is visited
   * and not yet listed, and every operand no longer `pending` has its whole
   * reach listed.
   */
  ghost predicate Walking(nodes: seq<Node>, v: nat, visited: set<nat>, topo: seq<nat>,
                          pending: set<nat>, visited': set<nat>, topo': seq<nat>)
    requires Linked(nodes) && v < |nodes|
  {
    pending <= Operands(nodes[v].op) &&
    TopoState(nodes, visited', topo') && topo <= topo' &&
    visited' - Elems(topo') == (visited - Elems(topo)) + {v} &&
    visited + {v} <= visited' <= visited + Reach(nodes, v) &&
    Elems(topo) <= Elems(topo') <= Elems(topo) + (Reach(nodes, v) - {v}) &&
    forall c :: c in Operands(nodes[v].op) - pending && c < |nodes| ==> Reach(nodes, c) <= Elems(topo')
  }

  lemma {:induction false} WalkStart(nodes: seq<Node>, v: nat, visited: set<nat>, topo: seq<nat>)
    requires Linked(nodes) && v < |nodes| && TopoState(nodes, visited, topo) && v !in visited
    ensures Walking(nodes, v, visited, topo, Operands(nodes[v].op), visited + {v}, topo)
  {
    ReachFacts(nodes, v);
  }

  /** The next operand to walk: a node below `v`, below every node in progress. */
  lemma {:induction false} WalkNext(nodes: seq<Node>, v: nat, visited: set<nat>, topo: seq<nat>,
                                    pending: set<nat>, visited': set<nat>, topo': seq<nat>, c: nat)
    requires Linked(nodes) && v < |nodes| && Walking(nodes, v, visited, topo, pending, visited', topo')
    requires forall w :: w in visited - Elems(topo) ==> v < w
    requires c in pending
    ensures c < |nodes| && forall w :: w in visited' - Elems(topo') ==> c < w
  {
    OperandsBelow(nodes, v);
  }

  /** Walking one more operand keeps the loop's state. */
  lemma {:induction false} WalkStep(nodes: seq<Node>, v: nat, visited: set<nat>, topo: seq<nat>,
                                    pending: set<nat>, visited': set<nat>, topo': seq<nat>, c: nat,
                                    visited'': set<nat>, topo'': seq<nat>)
    requires Linked(nodes) && v < |nodes| && Walking(nodes, v, visited, topo, pending, visited', topo')
    requires c in pending && c < |nodes|
    requires TopoState(nodes, visited'', topo'') && topo' <= topo''
    requires visited'' == visited' + Reach(nodes, c)
    requires Elems(topo'') == Elems(topo') + Reach(nodes, c)
    requires visited'' - Elems(topo'') == visited' - Elems(topo')
    ensures Walking(nodes, v, visited, topo, pending - {c}, visited'', topo'')
  {
    ReachFacts(nodes, v);
    ReachBounded(nodes, c);
  }

  /** With every operand's reach listed, the walk from `v` has listed and visited all of `v`'s reach. */
  lemma {:induction false} WalkDone(nodes: seq<Node>, v: nat, visited: set<nat>, topo: seq<nat>,
                                    visited': set<nat>, listed: seq<nat>)
    requires Linked(nodes) && v < |nodes|
    requires forall c :: c in Operands(nodes[v].op) && c < |nodes| ==> Reach(nodes, c) <= Elems(listed)
    requires visited + {v} <= visited' <= visited + Reach(nodes, v) && Elems(listed) <= visited'
    requires Elems(topo) <= Elems(listed) <= Elems(topo) + (Reach(nodes, v) - {v})
    requires Elems(listed + [v]) == Elems(listed) + {v}
    ensures visited' == visited + Reach(nodes, v)
    ensures Elems(listed + [v]) == Elems(topo) + Reach(nodes, v)
  {
    ReachFacts(nodes, v);
    forall w | w in Reach(nodes, v) ensures w in Elems(listed + [v]) {
      if w != v {
        var c :| c in Operands(nodes[v].op) && w in Reach(nodes, c);
      }
    }
  }

  lemma {:induction false} ReachBounded(nodes: seq<Node>, v: nat)
    requires Linked(nodes) && v < |nodes|
    ensures forall w :: w in Reach(nodes, v) ==> w <= v
  {
    forall w | w in Reach(nodes, v) ensures w <= v { ReachBelow(nodes, v, w); }
  }

  predicate OperandOk(nodes: seq<Node>, other: Operand)
  {
    other.Ref? ==> other.idx < |nodes|
  }

  /** The number an operand stands for. */
  function OperandValue(nodes: seq<Node>, other: Operand): real
    requires OperandOk(nodes, other)
  {
    match other
    case Ref(i) => nodes[i].data
    case Lit(x) => x
  }

  /** The arena after promoting `other`: a number becomes a new leaf, a node is kept. */
  function Promoted(nodes: seq<Node>, other: Operand): seq<Node>
  {
    match other
    case Ref(_) => nodes
    case Lit(x) => nodes + [Node(x, Leaf)]
  }

  /** The index of the promoted operand. */
  function PromotedIndex(nodes: seq<Node>, other: Operand): nat
  {
    match other
    case Ref(i) => i
    case Lit(_) => |nodes|
  }

  /** The arena after `self + other`: the promoted operand, then the sum node. */
  function Added(nodes: seq<Node>, self: nat, other: Operand): seq<Node>
    requires self < |nodes| && OperandOk(nodes, other)
  {
    Promoted(nodes, other) +
      [Node(nodes[self].data + OperandValue(nodes, other), Op.Add(self, PromotedIndex(nodes, other)))]
  }

  /** The arena after `self * other`: the promoted operand, then the product node. */
  function Multiplied(nodes: seq<Node>, self: nat, other: Operand): seq<Node>
    requires self < |nodes| && OperandOk(nodes, other)
  {
    Promoted(nodes, other) +
      [Node(nodes[self].data * OperandValue(nodes, other), Op.Mul(self, PromotedIndex(nodes, other)))]
  }

  function Zeros(n: nat): (r: seq<real>)
    ensures |r| == n && forall i :: 0 <= i < n ==> r[i] == 0.0
  {
    seq(n, _ => 0.0)
  }

  lemma {:induction false} AppendWellFormed(nodes: seq<Node>, n: Node)
    requires WellFormed(nodes) && NodeOk(nodes + [n], |nodes|)
    ensures WellFormed(nodes + [n])
  {
    var ext := nodes + [n];
    forall i | 0 <= i < |ext| ensures LinksBack(ext, i) && Computed(ext, i) {
      if i < |nodes| {
        assert LinksBack(nodes, i) && Computed(nodes, i);
        assert ext[i] == nodes[i];
        match nodes[i].op
        case Leaf =>
        case Add(l, r) => assert ext[l] == nodes[l] && ext[r] == nodes[r];
        case Mul(l, r) => assert ext[l] == nodes[l] && ext[r] == nodes[r];
        case Pow(b, _) => assert ext[b] == nodes[b];
        case Relu(a) => assert ext[a] == nodes[a];
        case Tanh(a) =>
        case Sigmoid(a) =>
        case Exp(a) =>
      }
    }
  }

  /**
   * The arena of `Value` objects created so far, with their gradients:
   * `nodes[i]` is the i-th `Value` created and `grad[i]` its `grad` field.
   */
  class Graph {
    var nodes: seq<Node>
    var grad: seq<real>

    ghost predicate Valid()
      reads this
    {
      |grad| == |nodes| && WellFormed(nodes)
    }

    constructor ()
      ensures Valid() && nodes == [] && grad == []
    {
      nodes := [];
      grad := [];
    }

    /** `Value.__init__`: appends a node whose gradient starts at 0. */
    method Push(n: Node) returns (i: nat)
      requires Valid() && NodeOk(nodes + [n], |nodes|)
      modifies this
      ensures Valid()
      ensures nodes == old(nodes) + [n] && grad == old(grad) + [0.0]
      ensures i == |old(nodes)|
    {
      AppendWellFormed(nodes, n);
      i := |nodes|;
      nodes := nodes + [n];
      grad := grad + [0.0];
    }

    /** `Value(data)`: a leaf, with no operands and a rule that does nothing. */
    method NewValue(x: real) returns (i: nat)
      requires Valid()
      modifies this
      ensures Valid()
      ensures nodes == old(nodes) + [Node(x, Leaf)] && grad == old(grad) + [0.0]
      ensures i == |old(nodes)|
    {
      i := Push(Node(x, Leaf));
    }

    /** Promotion of the right operand of `+` and `*`: a number becomes a new leaf, a node is used as is. */
    method Promote(other: Operand) returns (i: nat)
      requires Valid() && OperandOk(nodes, other)
      modifies this
      ensures Valid()
      ensures nodes == Promoted(old(nodes), other)
      ensures grad == old(grad) + Zeros(|nodes| - |old(nodes)|)
      ensures i == PromotedIndex(old(nodes), other) && i < |nodes|
      ensures nodes[i].data == OperandValue(old(nodes), other)
    {
      match other
      case Ref(j) => i := j;
      case Lit(x) => i := NewValue(x);
    }

    /** `self + other`: data is the sum; the rule adds `out.grad` to both operands. */
    method Add(self: nat, other: Operand) returns (out: nat)
      requires Valid() && self < |nodes| && OperandOk(nodes, other)
      modifies this
      ensures Valid()
      ensures nodes == Added(old(nodes), self, other)
      ensures grad == old(grad) + Zeros(|nodes| - |old(nodes)|)
      ensures out == |nodes| - 1
    {
      var o := Promote(other);
      assert nodes[self] == old(nodes[self]);
      out := Push(Node(nodes[self].data + nodes[o].data, Op.Add(self, o)));
    }

    /** `self * other`: data is the product; each operand receives the other's data times `out.grad`. */
    method Mul(self: nat, other: Operand) returns (out: nat)
      requires Valid() && self < |nodes| && OperandOk(nodes, other)
      modifies this
      ensures Valid()
      ensures nodes == Multiplied(old(nodes), self, other)
      ensures grad == old(grad) + Zeros(|nodes| - |old(nodes)|)
      ensures out == |nodes| - 1
    {
      ghost var want := Multiplied(nodes, self, other);
      var o := Promote(other);
      assert o == PromotedIndex(old(nodes), other);
      out := Push(Node(nodes[self].data * nodes[o].data, Op.Mul(self, o)));
      assert |nodes| == |want|;
      forall i | 0 <= i < |nodes| ensures nodes[i] == want[i] {
      }
    }

    /**
     * `self ** other`. An exponent that is not a number fails the assertion
     * and a zero base with a negative exponent raises; neither builds a node.
     */
    method Pow(self: nat, other: Exponent) returns (r: Result<nat, EngineError>)
      requires Valid() && self < |nodes|
      modifies this
      ensures Valid()
      ensures other.NodeExp? ==> r == Err(NonNumericExponent)
      ensures other.Num? && other.k < 0 && old(nodes[self].data) == 0.0 ==> r == Err(ZeroToNegativePower)
      ensures r.Err? ==> nodes == old(nodes) && grad == old(grad)
      ensures r.Ok? <==> other.Num? && (other.k >= 0 || old(nodes[self].data) != 0.0)
      ensures r.Ok? ==>
                nodes == old(nodes) + [Node(Power(old(nodes[self].data), other.k), Op.Pow(self, other.k))] &&
                grad == old(grad) + [0.0] && r.value == |old(nodes)|
    {
      match other
      case NodeExp(_) => r := Err(NonNumericExponent);
      case Num(k) =>
        if k < 0 && nodes[self].data == 0.0 {
          r := Err(ZeroToNegativePower);
        } else {
          var out := Push(Node(Power(nodes[self].data, k), Op.Pow(self, k)));
          r := Ok(out);
        }
    }

    /** `self.relu()`: 0 for a negative input, the input otherwise. */
    method Relu(self: nat) returns (out: nat)
      requires Valid() && self < |nodes|
      modifies this
      ensures Valid()
      ensures nodes == old(nodes) + [Node(ReluOf(old(nodes[self].data)), Op.Relu(self))]
      ensures grad == old(grad) + [0.0] && out == |old(nodes)|
    {
      out := Push(Node(ReluOf(nodes[self].data), Op.Relu(self)));
    }

    /** `self.tanh()`, where `t` is the hyperbolic tangent of the input, computed outside the model. */
    method Tanh(self: nat, t: real) returns (out: nat)
      requires Valid() && self < |nodes|
      modifies this
      ensures Valid()
      ensures nodes == old(nodes) + [Node(t, Op.Tanh(self))]
      ensures grad == old(grad) + [0.0] && out == |old(nodes)|
    {
      out := Push(Node(t, Op.Tanh(self)));
    }

    /** `self.sigmoid()`, where `s` is the logistic function of the input, computed outside the model. */
    method Sigmoid(self: nat, s: real) returns (out: nat)
      requires Valid() && self < |nodes|
      modifies this
      ensures Valid()
      ensures nodes == old(nodes) + [Node(s, Op.Sigmoid(self))]
      ensures grad == old(grad) + [0.0] && out == |old(nodes)|
    {
      out := Push(Node(s, Op.Sigmoid(self)));
    }

    /** `self.exp()`, where `e` is e raised to the input, computed outside the model. */
    method Exp(self: nat, e: real) returns (out: nat)
      requires Valid() && self < |nodes|
      modifies this
      ensures Valid()
      ensures nodes == old(nodes) + [Node(e, Op.Exp(self))]
      ensures grad == old(grad) + [0.0] && out == |old(nodes)|
    {
      out := Push(Node(e, Op.Exp(self)));
    }

    /**
     * `root.backward()`: orders the nodes reachable from the root with
     * `build_topo`, sets (not adds) the root's gradient to 1 and runs every
     * node's rule in reverse topological order. No other gradient is reset.
     * The order it used is returned so that callers can state facts about it.
     */
    method Backward(root: nat) returns (topo: seq<nat>)
      requires Valid() && root < |nodes|
      modifies this
      ensures Valid() && nodes == old(nodes)
      ensures IsTopoOrder(nodes, root, topo)
      ensures grad == RunRules(nodes, old(grad)[root := 1.0], Reverse(topo))
    {
      var visited;
      visited, topo := BuildTopo(nodes, root, {}, []);
      grad := grad[root := 1.0];
      ghost var start := grad;
      var i := |topo|;
      while i > 0
        invariant 0 <= i <= |topo|
        invariant nodes == old(nodes) && |grad| == |nodes|
        invariant InArena(nodes, Reverse(topo)[..|topo| - i])
        invariant grad == RunRules(nodes, start, Reverse(topo)[..|topo| - i])
      {
        i := i - 1;
        assert Reverse(topo)[..|topo| - i] == Reverse(topo)[..|topo| - 1 - i] + [topo[i]];
        RunRulesSnoc(nodes, start, Reverse(topo)[..|topo| - 1 - i], topo[i]);
        grad := Fire(nodes, grad, topo[i]);
      }
      assert Reverse(topo)[..|topo|] == Reverse(topo);
    }

    /** `-self`, defined as `self * -1`. */
    method Neg(self: nat) returns (out: nat)
      requires Valid() && self < |nodes|
      modifies this
      ensures Valid()
      ensures nodes == old(nodes) + [Node(-1.0, Leaf), Node(-old(nodes[self].data), Op.Mul(self, |old(nodes)|))]
      ensures grad == old(grad) + [0.0, 0.0] && out == |nodes| - 1
    {
      out := Mul(self, Lit(-1.0));
    }

    /** `other + self` for a number `other`: `self + other`. */
    method RAdd(self: nat, other: Operand) returns (out: nat)
      requires Valid() && self < |nodes| && OperandOk(nodes, other)
      modifies this
      ensures Valid()
      ensures nodes == Added(old(nodes), self, other)
      ensures grad == old(grad) + Zeros(|nodes| - |old(nodes)|)
      ensures out == |nodes| - 1
    {
      out := Add(self, other);
    }

    /** `other * self` for a number `other`: `self * other`. */
    method RMul(self: nat, other: Operand) returns (out: nat)
      requires Valid() && self < |nodes| && OperandOk(nodes, other)
      modifies this
      ensures Valid()
      ensures nodes == Multiplied(old(nodes), self, other)
      ensures grad == old(grad) + Zeros(|nodes| - |old(nodes)|)
      ensures out == |nodes| - 1
    {
      out := Mul(self, other);
    }

    /**
     * `self - other`, defined as `self + (-other)`: a node operand is negated
     * through `Neg`, a number is negated before it is promoted.
     */
    method Sub(self: nat, other: Operand) returns (out: nat)
      requires Valid() && self < |nodes| && OperandOk(nodes, other)
      modifies this
      ensures Valid() && old(nodes) <= nodes
      ensures grad == old(grad) + Zeros(|nodes| - |old(nodes)|)
      ensures out == |nodes| - 1
      ensures nodes[out].data == old(nodes[self].data) - OperandValue(old(nodes), other)
      ensures other.Ref? ==>
                nodes == old(nodes) + [Node(-1.0, Leaf),
                                       Node(-old(nodes[other.idx].data), Op.Mul(other.idx, |old(nodes)|)),
                                       nodes[out]] &&
                nodes[out].op == Op.Add(self, |old(nodes)| + 1)
      ensures other.Lit? ==>
                nodes == old(nodes) + [Node(-other.x, Leaf), nodes[out]] &&
                nodes[out].op == Op.Add(self, |old(nodes)|)
    {
      match other
      case Ref(j) =>
        var n := Neg(j);
        out := Add(self, Ref(n));
      case Lit(c) =>
        out := Add(self, Lit(-c));
    }

    /** `__rsub__`: the negation of `self`, then the number added to it (Python dispatches the sum to the negated node). */
    method RSub(self: nat, other: real) returns (out: nat)
      requires Valid() && self < |nodes|
      modifies this
      ensures Valid()
      ensures nodes == old(nodes) + [Node(-1.0, Leaf),
                                     Node(-old(nodes[self].data), Op.Mul(self, |old(nodes)|)),
                                     Node(other, Leaf),
                                     Node(other - old(nodes[self].data), Op.Add(|old(nodes)| + 1, |old(nodes)| + 2))]
      ensures grad == old(grad) + [0.0, 0.0, 0.0, 0.0] && out == |nodes| - 1
    {
      var n := Neg(self);
      out := Add(n, Lit(other));
    }

    /**
     * `self / other`, defined as `self * other ** -1`. For a node `other` the
     * power is a node; for a number it is computed before promotion. A zero
     * divisor raises and builds nothing.
     */
    method TrueDiv(self: nat, other: Operand) returns (r: Result<nat, EngineError>)
      requires Valid() && self < |nodes| && OperandOk(nodes, other)
      modifies this
      ensures Valid()
      ensures r.Err? <==> OperandValue(old(nodes), other) == 0.0
      ensures r.Err? ==> r.error == ZeroToNegativePower && nodes == old(nodes) && grad == old(grad)
      ensures r.Ok? ==>
                old(nodes) <= nodes && grad == old(grad) + Zeros(|nodes| - |old(nodes)|) &&
                r.value == |nodes| - 1 &&
                nodes[r.value].data == old(nodes[self].data) / OperandValue(old(nodes), other)
      ensures r.Ok? && other.Ref? ==>
                nodes == old(nodes) + [Node(1.0 / old(nodes[other.idx].data), Op.Pow(other.idx, -1)), nodes[r.value]] &&
                nodes[r.value].op == Op.Mul(self, |old(nodes)|)
      ensures r.Ok? && other.Lit? ==>
                nodes == old(nodes) + [Node(1.0 / other.x, Leaf), nodes[r.value]] &&
                nodes[r.value].op == Op.Mul(self, |old(nodes)|)
    {
      match other
      case Ref(j) =>
        var p := Pow(j, Num(-1));
        if p.Err? {
          return Err(p.error);
        }
        var out := Mul(self, Ref(p.value));
        DivideByInverse(old(nodes[self].data), old(nodes[j].data));
        r := Ok(out);
      case Lit(c) =>
        if c == 0.0 {
          return Err(ZeroToNegativePower);
        }
        var out := Mul(self, Lit(Power(c, -1)));
        DivideByInverse(old(nodes[self].data), c);
        r := Ok(out);
    }

    /** `__rtruediv__`: the inverse of `self`, then multiplied by the number (Python dispatches the product to the power node). */
    method RTrueDiv(self: nat, other: real) returns (r: Result<nat, EngineError>)
      requires Valid() && self < |nodes|
      modifies this
      ensures Valid()
      ensures r.Err? <==> old(nodes[self].data) == 0.0
      ensures r.Err? ==> r.error == ZeroToNegativePower && nodes == old(nodes) && grad == old(grad)
      ensures r.Ok? ==>
                nodes == old(nodes) + [Node(1.0 / old(nodes[self].data), Op.Pow(self, -1)),
                                       Node(other, Leaf),
                                       Node(other / old(nodes[self].data), Op.Mul(|old(nodes)|, |old(nodes)| + 1))] &&
                grad == old(grad) + [0.0, 0.0, 0.0] && r.value == |nodes| - 1
    {
      var p := Pow(self, Num(-1));
      if p.Err? {
        return Err(p.error);
      }
      ghost var x := old(nodes[self].data);
      DivideByInverse(other, x);
      assert nodes == old(nodes) + [Node(1.0 / x, Op.Pow(self, -1))];
      var out := Mul(p.value, Lit(other));
      assert nodes[out].data == Power(x, -1) * other;
      r := Ok(out);
    }
  }

  /** `x * y ** -1` is `x / y`. */
  lemma {:induction false} DivideByInverse(x: real, y: real)
    requires y != 0.0
    ensures Power(y, -1) == 1.0 / y
    ensures x * Power(y, -1) == x / y && Power(y, -1) * x == x / y
  {
  }
}
