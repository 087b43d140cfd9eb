/**
 * The earlier, forward-only `Value` of micrograd_from_scrath.py, the
 * `trace` walk that collects the nodes and edges below a root (the same
 * function appears in neuron_demo.py), and the script's worked example
 * L = (a * b + c) * f with the gradients it assigns by hand.
 */
module Scratch {
  import opened Core
  import Value
  import Autograd

  // ---------------------------------------------------------------------
  // The forward-only `Value`

  /** `Value.__add__`: `other.data` is read as it is, so a plain number,
      which has no `.data`, raises instead of being wrapped. */
  function Add(g: Arena, a: nat, other: Operand): (r: Result<Built>)
    requires WellFormed(g) && a < |g| && ValidOperand(g, other)
    ensures r.Err? <==> other.Num?
    ensures r.Err? ==> r.error == NoAttribute
    ensures r.Ok? ==> (WellFormed(r.value.arena) && Extends(g, r.value.arena)
      && |r.value.arena| == |g| + 1 && r.value.node == |g|)
    ensures r.Ok? ==> var v := r.value.arena[|g|];
      v.data == g[a].data + g[other.i].data && v.grad == 0.0 && v.op == AddOp
    ensures r.Ok? ==> Prev(r.value.arena, |g|) == {a, other.i}
  {
    match other
    case Num(_) => Err(NoAttribute)
    case Ref(b) => Ok(Built(Init(g, g[a].data + g[b].data, [a, b], AddOp), |g|))
  }

  /** `Value.__mul__`, with the same restriction. */
  function Mul(g: Arena, a: nat, other: Operand): (r: Result<Built>)
    requires WellFormed(g) && a < |g| && ValidOperand(g, other)
    ensures r.Err? <==> other.Num?
    ensures r.Err? ==> r.error == NoAttribute
    ensures r.Ok? ==> (WellFormed(r.value.arena) && Extends(g, r.value.arena)
      && |r.value.arena| == |g| + 1 && r.value.node == |g|)
    ensures r.Ok? ==> var v := r.value.arena[|g|];
      v.data == g[a].data * g[other.i].data && v.grad == 0.0 && v.op == MulOp
    ensures r.Ok? ==> Prev(r.value.arena, |g|) == {a, other.i}
  {
    match other
    case Num(_) => Err(NoAttribute)
    case Ref(b) => Ok(Built(Init(g, g[a].data * g[b].data, [a, b], MulOp), |g|))
  }

  /** On two `Value`s the forward-only operators build the very node the
      later class builds; the later class only adds the backward rule and the
      wrapping of plain numbers. */
  lemma {:induction false} SameAdd(g: Arena, a: nat, b: nat)
    requires WellFormed(g) && a < |g| && b < |g|
    ensures Add(g, a, Ref(b)) == Ok(Value.Add(g, a, Ref(b)))
  {
    var x := g[a].data + g[b].data;
    assert Value.Wrap(g, Ref(b)) == Built(g, b);
    var p := Value.Add(g, a, Ref(b)).arena;
    assert p == p[..|g|] + [p[|g|]];
    assert p[|g|] == Node(x, 0.0, [a, b], AddOp);
    var m := Add(g, a, Ref(b)).value.arena;
    assert m[|g|].args == [a, b];
    assert m == m[..|g|] + [m[|g|]];
    assert m[|g|] == Node(x, 0.0, [a, b], AddOp);
  }

  /** The same for `__mul__`. */
  lemma {:induction false} SameMul(g: Arena, a: nat, b: nat)
    requires WellFormed(g) && a < |g| && b < |g|
    ensures Mul(g, a, Ref(b)) == Ok(Value.Mul(g, a, Ref(b)))
  {
    var x := g[a].data * g[b].data;
    assert Value.Wrap(g, Ref(b)) == Built(g, b);
    var p := Value.Mul(g, a, Ref(b)).arena;
    assert p == p[..|g|] + [p[|g|]];
    assert p[|g|] == Node(x, 0.0, [a, b], MulOp);
    var m := Mul(g, a, Ref(b)).value.arena;
    assert m[|g|].args == [a, b];
    assert m == m[..|g|] + [m[|g|]];
    assert m[|g|] == Node(x, 0.0, [a, b], MulOp);
  }

  // ---------------------------------------------------------------------
  // `trace`

  /** The nodes reachable from the members of `cs`. */
  ghost function ReachOf(g: Arena, cs: set<nat>): set<nat>
    requires WellFormed(g)
  {
    set c, u | c in cs && c < |g| && u in Reach(g, c) :: u
  }

  /** The edges `trace` records for the members of `s`: one edge
      (operand, node) per operand. */
  ghost function Edges(g: Arena, s: set<nat>): set<(nat, nat)>
    requires WellFormed(g)
  {
    set u, c | u in s && u < |g| && c in Prev(g, u) :: (c, u)
  }

  /** Every recorded node is a node of `g`, and every recorded node at or
      below `v` has been expanded completely: the walks still in progress
      are all above `v`. */
  ghost predicate Expanded(g: Arena, nodes: set<nat>, v: nat)
    requires WellFormed(g)
  {
    forall u :: u in nodes ==> u < |g| && (u <= v ==> Reach(g, u) <= nodes)
  }

  lemma {:induction false} EdgesUnion(g: Arena, s: set<nat>, t: set<nat>)
    requires WellFormed(g)
    ensures Edges(g, s + t) == Edges(g, s) + Edges(g, t)
  {
  }

  lemma {:induction false} EdgesOfOne(g: Arena, v: nat)
    requires WellFormed(g) && v < |g|
    ensures Edges(g, {v}) == set c | c in Prev(g, v) :: (c, v)
  {
  }

  /** The nodes below a reachable node are reachable. */
  lemma {:induction false} ReachInside(g: Arena, c: nat, u: nat)
    requires WellFormed(g) && c < |g| && u in Reach(g, c)
    ensures u < |g| && Reach(g, u) <= Reach(g, c)
  {
    ReachClosed(g, c);
    ReachWithinClosed(g, u, Reach(g, c));
  }

  /** Walking operand `c` of `v` next finds the recorded nodes in the state
      the walk requires. */
  lemma {:induction false} ExpandedForOperand(g: Arena, n0: set<nat>, v: nat, done: set<nat>, c: nat, nodes: set<nat>)
    requires WellFormed(g) && v < |g| && c in Prev(g, v) && done <= Prev(g, v)
    requires Expanded(g, n0, v) && nodes == n0 + {v} + ReachOf(g, done)
    ensures Expanded(g, nodes, c)
  {
    assert c < v by {
      ReachOfOperand(g, v, c);
    }
    forall u | u in nodes ensures u < |g| && (u <= c ==> Reach(g, u) <= nodes) {
      if u in ReachOf(g, done) {
        var c' :| c' in done && c' < |g| && u in Reach(g, c');
        ReachInside(g, c', u);
      }
    }
  }

  /** The reach of one more operand joins the reach of those walked. */
  lemma {:induction false} ReachOfAdd(g: Arena, done: set<nat>, c: nat)
    requires WellFormed(g) && c < |g|
    ensures ReachOf(g, done + {c}) == ReachOf(g, done) + Reach(g, c)
  {
  }

  /** With every operand walked, the recorded nodes are v's reach. */
  lemma {:induction false} ReachOfOperands(g: Arena, v: nat)
    requires WellFormed(g) && v < |g|
    ensures {v} + ReachOf(g, Prev(g, v)) == Reach(g, v)
  {
    Autograd.OperandsBelow(g, v);
  }

  /** The edges from the walked operands of `v` into `v`. */
  ghost function Into(done: set<nat>, v: nat): set<(nat, nat)>
  {
    set c | c in done :: (c, v)
  }

  /** The state of the loop in `build(v)` once the operands `done` of `v`
      have been walked, starting from the recorded nodes `n0` and edges
      `e0`: `v`, the nodes its walked operands reach, the edges into each
      newly recorded node below `v`, and the edges from `done` into `v`. */
  ghost predicate Walked(g: Arena, n0: set<nat>, e0: set<(nat, nat)>, v: nat, done: set<nat>,
                         nodes: set<nat>, edges: set<(nat, nat)>)
    requires WellFormed(g)
  {
    && nodes == n0 + {v} + ReachOf(g, done)
    && edges == e0 + Edges(g, nodes - n0 - {v}) + Into(done, v)
  }

  /** One turn of the loop in `build(v)`: after the edge (c, v) is added and
      operand `c` is walked, the recorded nodes and edges are those of the
      operands walked so far, `c` included. */
  lemma {:induction false} WalkOperand(g: Arena, n0: set<nat>, e0: set<(nat, nat)>, v: nat,
                                       done: set<nat>, c: nat, n1: set<nat>, e1: set<(nat, nat)>,
                                       n2: set<nat>, e2: set<(nat, nat)>)
    requires WellFormed(g) && v < |g| && c < |g| && v !in n0
    requires Walked(g, n0, e0, v, done, n1, e1)
    requires n2 == n1 + Reach(g, c)
    requires e2 == e1 + {(c, v)} + Edges(g, n2 - n1)
    ensures Walked(g, n0, e0, v, done + {c}, n2, e2)
  {
    ReachOfAdd(g, done, c);
    WalkEdges(g, n0, v, n1, n2);
    IntoAdd(done, c, v);
  }

  lemma {:induction false} IntoAdd(done: set<nat>, c: nat, v: nat)
    ensures Into(done + {c}, v) == Into(done, v) + {(c, v)}
  {
    forall p | p in Into(done + {c}, v) ensures p in Into(done, v) + {(c, v)} {
      var c' :| c' in done + {c} && p == (c', v);
    }
  }

  /** The nodes new to the walk of `v` split into those recorded before
      operand `c` and those the walk of `c` recorded. */
  lemma {:induction false} WalkEdges(g: Arena, n0: set<nat>, v: nat, n1: set<nat>, n2: set<nat>)
    requires WellFormed(g) && n0 + {v} <= n1 <= n2
    ensures Edges(g, n2 - n0 - {v}) == Edges(g, n1 - n0 - {v}) + Edges(g, n2 - n1)
  {
    assert n2 - n0 - {v} == (n1 - n0 - {v}) + (n2 - n1);
    EdgesUnion(g, n1 - n0 - {v}, n2 - n1);
  }


  /** The loop in `build(v)` has walked every operand: v's reach is
      recorded, with the edges into each node it newly recorded. */
  lemma {:induction false} WalkDone(g: Arena, n0: set<nat>, e0: set<(nat, nat)>, v: nat,
                                    nodes: set<nat>, edges: set<(nat, nat)>)
    requires WellFormed(g) && v < |g| && v !in n0
    requires Walked(g, n0, e0, v, Prev(g, v), nodes, edges)
    ensures nodes == n0 + Reach(g, v)
    ensures edges == e0 + Edges(g, nodes - n0)
  {
    ReachOfOperands(g, v);
    assert nodes - n0 == (nodes - n0 - {v}) + {v};
    EdgesUnion(g, nodes - n0 - {v}, {v});
    EdgesOfOne(g, v);
  }

  /** The state `trace` keeps between calls of `build`. */
  class Tracer {
    var nodes: set<nat>
    var edges: set<(nat, nat)>

    constructor ()
      ensures nodes == {} && edges == {}
    {
      nodes, edges := {}, {};
    }

    /** `build(v)`: a node not yet recorded is recorded, and then each of
        its operands gets an edge and is walked in turn.  A recorded node is
        not expanded again.  Walking `v` records exactly the nodes it reaches
        and the edges into the ones that were new. */
    method Build(g: Arena, v: nat)
      requires WellFormed(g) && v < |g| && Expanded(g, nodes, v)
      modifies this
      ensures nodes == old(nodes) + Reach(g, v)
      ensures edges == old(edges) + Edges(g, nodes - old(nodes))
      decreases v
    {
      if v !in nodes {
        ghost var n0, e0 := nodes, edges;
        nodes := nodes + {v};
        var rest := Prev(g, v);
        assert Prev(g, v) - rest == {};
        while rest != {}
          invariant rest <= Prev(g, v)
          invariant Walked(g, n0, e0, v, Prev(g, v) - rest, nodes, edges)
          decreases rest
        {
          var c :| c in rest;
          ghost var done := Prev(g, v) - rest;
          ghost var n1, e1 := nodes, edges;
          ExpandedForOperand(g, n0, v, done, c, nodes);
          ReachOfOperand(g, v, c);
          edges := edges + {(c, v)};
          Build(g, c);
          WalkOperand(g, n0, e0, v, done, c, n1, e1, nodes, edges);
          assert Prev(g, v) - (rest - {c}) == done + {c};
          rest := rest - {c};
        }
        WalkDone(g, n0, e0, v, nodes, edges);
      } else {
        assert nodes - old(nodes) == {};
      }
    }
  }

  /** `trace(root)`: the nodes reachable from `root`, and for each of them
      an edge from each of its operands. */
  method Trace(g: Arena, root: nat) returns (nodes: set<nat>, edges: set<(nat, nat)>)
    requires WellFormed(g) && root < |g|
    ensures nodes == Reach(g, root)
    ensures edges == Edges(g, Reach(g, root))
  {
    var t := new Tracer();
    t.Build(g, root);
    nodes, edges := t.nodes, t.edges;
  }

  /** What `trace` returns: the root; every operand of every listed node;
      nothing that is not reachable; and an edge (c, v) exactly when c is an
      operand of a listed node v. */
  lemma {:induction false} TraceShape(g: Arena, root: nat)
    requires WellFormed(g) && root < |g|
    ensures root in Reach(g, root) && Closed(g, Reach(g, root))
    ensures forall s :: root in s && Closed(g, s) ==> Reach(g, root) <= s
    ensures forall c, v :: (c, v) in Edges(g, Reach(g, root)) <==>
      v in Reach(g, root) && c in Prev(g, v)
    ensures forall c, v :: (c, v) in Edges(g, Reach(g, root)) ==>
      c in Reach(g, root) && v in Reach(g, root)
  {
    ReachClosed(g, root);
    forall s | root in s && Closed(g, s) ensures Reach(g, root) <= s {
      ReachWithinClosed(g, root, s);
    }
  }

  // ---------------------------------------------------------------------
  // The worked example

  /** `Value(data, children, op)` appends its node to the graph. */
  lemma {:induction false} InitAppends(g: Arena, data: real, children: seq<nat>, op: Op)
    requires WellFormed(g)
    requires |children| == Arity(op) && forall c :: c in children ==> c < |g|
    ensures Init(g, data, children, op) == g + [Node(data, 0.0, children, op)]
  {
    var h := Init(g, data, children, op);
    assert h == h[..|g|] + [h[|g|]];
  }

  /** `a = Value(2.0)`, `b = Value(-3.0)`, `c = Value(10.0)`, `e = a*b`,
      `d = e + c`, `f = Value(-2.0)`, `L = d * f`, in that order. */
  function WorkedExample(): (r: Result<Built>)
  {
    var g := Init(Init(Init([], 2.0, [], Leaf), -3.0, [], Leaf), 10.0, [], Leaf);
    match Mul(g, 0, Ref(1))
    case Err(err) => Err(err)
    case Ok(e) =>
      match Add(e.arena, e.node, Ref(2))
      case Err(err) => Err(err)
      case Ok(d) =>
        var h := Init(d.arena, -2.0, [], Leaf);
        Mul(h, d.node, Ref(|d.arena|))
  }

  /** The graph of the example, a, b, c, e, d, f, L at indices 0 to 6,
      holding the gradients `gs`. */
  function ExampleWith(gs: seq<real>): (g: Arena)
    requires |gs| == 7
    ensures |g| == 7 && forall i :: 0 <= i < 7 ==> g[i].grad == gs[i]
  {
    [ Node(2.0, gs[0], [], Leaf),
      Node(-3.0, gs[1], [], Leaf),
      Node(10.0, gs[2], [], Leaf),
      Node(-6.0, gs[3], [0, 1], MulOp),
      Node(4.0, gs[4], [3, 2], AddOp),
      Node(-2.0, gs[5], [], Leaf),
      Node(-8.0, gs[6], [4, 5], MulOp) ]
  }

  /** The example as the script builds it, every gradient 0. */
  const Example: Arena := ExampleWith([0.0, 0.0, 0.0, 0.0, 0.0, 0.0, 0.0])

  /** The script builds e = -6, d = 4 and L = -8. */
  lemma {:induction false} WorkedExampleValues()
    ensures WorkedExample() == Ok(Built(Example, 6))
  {
    var g0 := Init([], 2.0, [], Leaf);
    InitAppends([], 2.0, [], Leaf);
    var g1 := Init(g0, -3.0, [], Leaf);
    InitAppends(g0, -3.0, [], Leaf);
    var g := Init(g1, 10.0, [], Leaf);
    InitAppends(g1, 10.0, [], Leaf);
    assert g == Example[..3];
    var e := Init(g, -6.0, [0, 1], MulOp);
    InitAppends(g, -6.0, [0, 1], MulOp);
    assert e == Example[..4];
    var d := Init(e, 4.0, [3, 2], AddOp);
    InitAppends(e, 4.0, [3, 2], AddOp);
    assert d == Example[..5];
    var h := Init(d, -2.0, [], Leaf);
    InitAppends(d, -2.0, [], Leaf);
    assert h == Example[..6];
    InitAppends(h, -8.0, [4, 5], MulOp);
    assert Init(h, -8.0, [4, 5], MulOp) == Example;
  }

  /** The gradients the script writes by hand, for a, b, c, e, d, f, L. */
  const HandGrads: seq<real> := [-2.0 * -3.0, -2.0 * 2.0, -2.0, -2.0, -2.0, 4.0, 1.0]

  /** The chain rule worked through the example by hand, starting from
      gradients `gs`: L gets 1; f gets d's value and d gets f's, times L's
      gradient; e and c get d's; a gets b's value and b gets a's, times
      e's. */
  function ChainByHand(gs: seq<real>): (r: seq<real>)
    requires |gs| == 7
    ensures |r| == 7
  {
    var l := 1.0;
    var f := gs[5] + 4.0 * l;
    var d := gs[4] + -2.0 * l;
    var e := gs[3] + d;
    var c := gs[2] + d;
    var b := gs[1] + 2.0 * e;
    var a := gs[0] + -3.0 * e;
    [a, b, c, e, d, f, l]
  }

  /** The script's hand-set gradients, assigned in place from L down to the
      leaves; they are exactly the gradients `L.backward()` computes. */
  method HandDerive(tape: Autograd.Tape)
    requires tape.nodes == Example
    modifies tape
    ensures tape.nodes == ExampleWith(HandGrads)
    ensures WellFormed(Example) && Autograd.RulesDefined(Example, 6)
    ensures tape.nodes == Autograd.BackwardResult(Example, 6)
  {
    ghost var gs: seq<real> := [0.0, 0.0, 0.0, 0.0, 0.0, 0.0, 0.0];
    ExampleSet(gs, 6, 1.0);
    tape.nodes := tape.nodes[6 := tape.nodes[6].(grad := 1.0)];          // L
    gs := gs[6 := 1.0];
    ExampleSet(gs, 5, 4.0);
    tape.nodes := tape.nodes[5 := tape.nodes[5].(grad := 4.0)];          // f
    gs := gs[5 := 4.0];
    ExampleSet(gs, 4, -2.0);
    tape.nodes := tape.nodes[4 := tape.nodes[4].(grad := -2.0)];         // d
    gs := gs[4 := -2.0];
    ExampleSet(gs, 2, -2.0);
    tape.nodes := tape.nodes[2 := tape.nodes[2].(grad := -2.0)];         // c
    gs := gs[2 := -2.0];
    ExampleSet(gs, 3, -2.0);
    tape.nodes := tape.nodes[3 := tape.nodes[3].(grad := -2.0)];         // e
    gs := gs[3 := -2.0];
    ExampleSet(gs, 0, -2.0 * -3.0);
    tape.nodes := tape.nodes[0 := tape.nodes[0].(grad := -2.0 * -3.0)];  // a
    gs := gs[0 := -2.0 * -3.0];
    ExampleSet(gs, 1, -2.0 * 2.0);
    tape.nodes := tape.nodes[1 := tape.nodes[1].(grad := -2.0 * 2.0)];   // b
    gs := gs[1 := -2.0 * 2.0];
    assert gs == HandGrads;
    HandGradsAreBackward();
  }

  /** Setting one gradient of the example gives the example with that
      gradient. */
  lemma {:induction false} ExampleSet(gs: seq<real>, i: nat, x: real)
    requires |gs| == 7 && i < 7
    ensures ExampleWith(gs)[i := ExampleWith(gs)[i].(grad := x)] == ExampleWith(gs[i := x])
  {
    var g := ExampleWith(gs);
    var h := ExampleWith(gs[i := x]);
    forall j | 0 <= j < 7 ensures g[i := g[i].(grad := x)][j] == h[j] {
      assert j in {0, 1, 2, 3, 4, 5, 6};
    }
  }

  /** The example with gradients `hs` is the example with gradients `gs`
      with each gradient replaced. */
  lemma {:induction false} ExampleRegrad(gs: seq<real>, hs: seq<real>)
    requires |gs| == 7 && |hs| == 7
    ensures forall i :: 0 <= i < 7 ==> ExampleWith(hs)[i] == ExampleWith(gs)[i].(grad := hs[i])
  {
    forall i | 0 <= i < 7 ensures ExampleWith(hs)[i] == ExampleWith(gs)[i].(grad := hs[i]) {
      assert i in {0, 1, 2, 3, 4, 5, 6};
    }
  }


  /** The example's nodes are well formed, none raises to a power, and every
      node feeds the root. */
  lemma {:induction false} ExampleShape(gs: seq<real>)
    requires |gs| == 7
    ensures WellFormed(ExampleWith(gs)) && Autograd.RulesDefined(ExampleWith(gs), 6)
    ensures 3 in Reach(ExampleWith(gs), 6) && 4 in Reach(ExampleWith(gs), 6)
  {
    var g := ExampleWith(gs);
    ExampleWellFormed(gs);
    ExampleRules(gs);
    ReachOfOperand(g, 6, 4);
    ReachOfOperand(g, 4, 3);
  }

  lemma {:induction false} ExampleRules(gs: seq<real>)
    requires |gs| == 7 && WellFormed(ExampleWith(gs))
    ensures Autograd.RulesDefined(ExampleWith(gs), 6)
  {
    var g := ExampleWith(gs);
    forall v | v in Reach(g, 6) ensures Autograd.RuleDefined(g, v) {
      assert !g[v].op.PowOp? by {
        assert v in {0, 1, 2, 3, 4, 5, 6};
      }
    }
  }


  lemma {:induction false} ExampleWellFormed(gs: seq<real>)
    requires |gs| == 7
    ensures WellFormed(ExampleWith(gs))
  {
    var g := ExampleWith(gs);
    forall i | 0 <= i < 7
      ensures |g[i].args| == Arity(g[i].op) && forall k :: 0 <= k < |g[i].args| ==> g[i].args[k] < i
    {
      assert i in {0, 1, 2, 3, 4, 5, 6};
    }
  }


  /** Node `n` feeds a single node `q`, so its adjoint is its own gradient
      plus the local derivative times q's adjoint. */
  lemma {:induction false} ExampleEdge(gs: seq<real>, n: nat, q: nat)
    requires |gs| == 7 && n < 6 && q == [3, 3, 4, 4, 6, 6][n]
    ensures WellFormed(ExampleWith(gs)) && Autograd.RulesDefined(ExampleWith(gs), 6)
    ensures Autograd.Adjoint(ExampleWith(gs), 6, n)
      == gs[n] + Autograd.Contrib(ExampleWith(gs), q, n) * Autograd.Adjoint(ExampleWith(gs), 6, q)
  {
    var g := ExampleWith(gs);
    ExampleShape(gs);
    forall p | n < p < 7 && p != q && p in Reach(g, 6) ensures n !in g[p].args {
      if n in g[p].args {
        ExampleArgs(gs, p, n);
      }
    }
    Autograd.SingleConsumer(g, 6, n, q);
  }

  /** The operands of the example's nodes: a and b feed e, e and c feed d,
      d and f feed L. */
  lemma {:induction false} ExampleArgs(gs: seq<real>, p: nat, n: nat)
    requires |gs| == 7 && p < 7 && n in ExampleWith(gs)[p].args
    ensures n < 6 && p == [3, 3, 4, 4, 6, 6][n]
  {
    var g := ExampleWith(gs);
    if p == 3 {
      assert g[3].args == [0, 1];
    } else if p == 4 {
      assert g[4].args == [3, 2];
    } else if p == 6 {
      assert g[6].args == [4, 5];
    } else {
      assert false;
    }
  }

  /** The local derivative along each edge of the example. */
  lemma {:induction false} ExampleContrib(gs: seq<real>, n: nat, q: nat)
    requires |gs| == 7 && n < 6 && q == [3, 3, 4, 4, 6, 6][n]
    requires WellFormed(ExampleWith(gs)) && Autograd.RuleDefined(ExampleWith(gs), q)
    ensures Autograd.Contrib(ExampleWith(gs), q, n) == [-3.0, 2.0, 1.0, 1.0, -2.0, 4.0][n]
  {
    var g := ExampleWith(gs);
    Autograd.ContribOfTwo(g, q, n);
    if n == 0 {
      assert Autograd.Local(g, 3, 0) == -3.0;
    } else if n == 1 {
      assert Autograd.Local(g, 3, 1) == 2.0;
    } else if n == 2 {
      assert Autograd.Local(g, 4, 1) == 1.0;
    } else if n == 3 {
      assert Autograd.Local(g, 4, 0) == 1.0;
    } else if n == 4 {
      assert Autograd.Local(g, 6, 0) == -2.0;
    } else {
      assert Autograd.Local(g, 6, 1) == 4.0;
    }
  }

  /** `L.backward()` on the example, whatever gradients it starts from, adds
      exactly the chain rule worked by hand. */
  lemma {:induction false} ExampleAdjoints(gs: seq<real>)
    requires |gs| == 7
    ensures WellFormed(ExampleWith(gs)) && Autograd.RulesDefined(ExampleWith(gs), 6)
    ensures Autograd.BackwardResult(ExampleWith(gs), 6) == ExampleWith(ChainByHand(gs))
  {
    var g := ExampleWith(gs);
    ExampleAdjointValues(gs);
    ExampleRegrad(gs, ChainByHand(gs));
    var h := Autograd.BackwardResult(g, 6);
    var k := ExampleWith(ChainByHand(gs));
    forall i | 0 <= i < 7 ensures h[i] == k[i] {
      if i == 0 {} else if i == 1 {} else if i == 2 {} else if i == 3 {}
      else if i == 4 {} else if i == 5 {} else {}
    }
  }

  /** Node by node, the adjoints of the example are the chain rule worked
      by hand. */
  lemma {:induction false} ExampleAdjointValues(gs: seq<real>)
    requires |gs| == 7
    ensures WellFormed(ExampleWith(gs)) && Autograd.RulesDefined(ExampleWith(gs), 6)
    ensures var g, c := ExampleWith(gs), ChainByHand(gs);
      && Autograd.Adjoint(g, 6, 0) == c[0] && Autograd.Adjoint(g, 6, 1) == c[1]
      && Autograd.Adjoint(g, 6, 2) == c[2] && Autograd.Adjoint(g, 6, 3) == c[3]
      && Autograd.Adjoint(g, 6, 4) == c[4] && Autograd.Adjoint(g, 6, 5) == c[5]
      && Autograd.Adjoint(g, 6, 6) == c[6]
  {
    var g := ExampleWith(gs);
    ExampleShape(gs);
    Autograd.AdjointOfRoot(g, 6);
    ExampleEdge(gs, 5, 6);
    ExampleContrib(gs, 5, 6);
    ExampleEdge(gs, 4, 6);
    ExampleContrib(gs, 4, 6);
    ExampleEdge(gs, 3, 4);
    ExampleContrib(gs, 3, 4);
    ExampleEdge(gs, 2, 4);
    ExampleContrib(gs, 2, 4);
    ExampleEdge(gs, 1, 3);
    ExampleContrib(gs, 1, 3);
    ExampleEdge(gs, 0, 3);
    ExampleContrib(gs, 0, 3);
  }

  /** The hand-derived gradients are exactly what `L.backward()` computes
      on the freshly built example. */
  lemma {:induction false} HandGradsAreBackward()
    ensures WellFormed(Example) && Autograd.RulesDefined(Example, 6)
    ensures Autograd.BackwardResult(Example, 6) == ExampleWith(HandGrads)
  {
    ExampleAdjoints([0.0, 0.0, 0.0, 0.0, 0.0, 0.0, 0.0]);
    assert ChainByHand([0.0, 0.0, 0.0, 0.0, 0.0, 0.0, 0.0]) == HandGrads;
  }

  /** Calling `L.backward()` a second time without zeroing: L is reset to 1
      but every other gradient is added to again, so a, b, c, e, d and f
      end up with 24, -16, -6, -6, -4 and 8 instead of 6, -4, -2, -2, -2
      and 4. */
  lemma {:induction false} SecondBackward()
    ensures WellFormed(Example) && Autograd.RulesDefined(Example, 6)
    ensures var h := Autograd.BackwardResult(Example, 6);
      WellFormed(h) && Autograd.RulesDefined(h, 6) &&
      Autograd.BackwardResult(h, 6) == ExampleWith([24.0, -16.0, -6.0, -6.0, -4.0, 8.0, 1.0])
  {
    HandGradsAreBackward();
    ExampleAdjoints(HandGrads);
    assert ChainByHand(HandGrads) == [24.0, -16.0, -6.0, -6.0, -4.0, 8.0, 1.0];
  }
}
