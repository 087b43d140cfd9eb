/**
 * Reverse-mode differentiation over the arena: the per-op backward rules
 * (the `_backward` closures of neuron_demo.py), the depth-first topological
 * sort `build_topo`, and `backward`, which seeds the root and runs the rules
 * in reverse topological order.
 *
 * The reference for what `backward` computes is `Adjoint`: the root gets 1,
 * every other node keeps the gradient it already had, plus, for each node
 * reachable from the root that uses it as an operand, that consumer's local
 * derivative times the consumer's own adjoint.
 */
module Autograd {
  import opened Core
  import opened Sums
  import Value

  // ---------------------------------------------------------------------
  // Local derivatives

  /** The factor the source's rule for `x ** n` applies to `out.grad`,
      `n * x ** (n - 1)`, exactly as written: for x = 0 and n <= 0 the power
      `x ** (n - 1)` divides by zero. */
  function PowLocalAsWritten(x: real, n: int): (r: Result<real>)
    ensures r.Err? <==> x == 0.0 && n <= 0
  {
    if x == 0.0 && n - 1 < 0 then Err(ZeroDivision)
    else Ok((n as real) * Value.IntPow(x, n - 1))
  }

  /** The factor used by this model: the same, except that `x ** 0`, a
      constant, has derivative 0 everywhere, including at x = 0.  It is
      defined for every node `Value.Pow` accepts. */
  function PowLocal(x: real, n: int): (r: real)
    requires n >= 0 || x != 0.0
    ensures PowLocalAsWritten(x, n).Ok? ==> r == PowLocalAsWritten(x, n).value
    ensures n == 0 ==> r == 0.0
  {
    if n == 0 then 0.0 else (n as real) * Value.IntPow(x, n - 1)
  }

  /** `Value(0.0) ** 0` builds a node holding 1.0, but the source's rule for
      it evaluates `0.0 ** -1` and raises; the rule this model runs passes 0
      on instead. */
  lemma {:induction false} ZeroToTheZero()
    ensures var g := [Node(0.0, 0.0, [], Leaf)];
      Value.Pow(g, 0, Value.IntPower(0)).Ok? && Value.Pow(g, 0, Value.IntPower(0)).value.arena[1].data == 1.0
    ensures PowLocalAsWritten(0.0, 0) == Err(ZeroDivision)
    ensures PowLocal(0.0, 0) == 0.0
  {
    assert Value.IntPow(0.0, 0) == 1.0;
  }

  /** The rule of node `v` can run: only a negative power of 0 cannot. */
  predicate RuleDefined(g: Arena, v: nat)
    requires WellFormed(g) && v < |g|
  {
    match g[v].op
    case PowOp(n) => n >= 0 || g[g[v].args[0]].data != 0.0
    case _ => true
  }

  /** The rule of every node reachable from `root` can run. */
  ghost predicate RulesDefined(g: Arena, root: nat)
    requires WellFormed(g) && root < |g|
  {
    forall v :: v in Reach(g, root) ==> RuleDefined(g, v)
  }

  /** d(node v) / d(its k-th operand), as the rule of v's op computes it. */
  ghost function Local(g: Arena, v: nat, k: nat): real
    requires WellFormed(g) && v < |g| && k < |g[v].args| && RuleDefined(g, v)
  {
    var args := g[v].args;
    match g[v].op
    case Leaf => 0.0
    case AddOp => 1.0
    case MulOp => if k == 0 then g[args[1]].data else g[args[0]].data
    case PowOp(n) => PowLocal(g[args[0]].data, n)
    case TanhOp(t) => 1.0 - t * t
    case ExpOp => g[v].data
  }

  /** What the rule of `v` adds to the gradient of `u` per unit of v's own
      gradient: the local derivatives of every operand slot holding `u`. */
  ghost function Contrib(g: Arena, v: nat, u: nat): real
    requires WellFormed(g) && v < |g| && RuleDefined(g, v)
  {
    ContribFrom(g, v, u, 0)
  }

  ghost function ContribFrom(g: Arena, v: nat, u: nat, k: nat): real
    requires WellFormed(g) && v < |g| && RuleDefined(g, v) && k <= |g[v].args|
    decreases |g[v].args| - k
  {
    if k == |g[v].args| then 0.0
    else (if g[v].args[k] == u then Local(g, v, k) else 0.0) + ContribFrom(g, v, u, k + 1)
  }


  /** With two operand slots, the contribution is the sum of the slots that
      hold `u`. */
  lemma {:induction false} ContribOfTwo(g: Arena, v: nat, u: nat)
    requires WellFormed(g) && v < |g| && RuleDefined(g, v) && |g[v].args| == 2
    ensures Contrib(g, v, u) == (if g[v].args[0] == u then Local(g, v, 0) else 0.0)
                              + (if g[v].args[1] == u then Local(g, v, 1) else 0.0)
  {
    assert ContribFrom(g, v, u, 2) == 0.0;
    assert ContribFrom(g, v, u, 1) == (if g[v].args[1] == u then Local(g, v, 1) else 0.0);
  }

  /** With one operand slot, only that operand receives anything. */
  lemma {:induction false} ContribOfOne(g: Arena, v: nat, u: nat)
    requires WellFormed(g) && v < |g| && RuleDefined(g, v) && |g[v].args| == 1
    ensures Contrib(g, v, u) == if g[v].args[0] == u then Local(g, v, 0) else 0.0
  {
    assert ContribFrom(g, v, u, 1) == 0.0;
  }

  lemma {:induction false} ContribZero(g: Arena, v: nat, u: nat, k: nat)
    requires WellFormed(g) && v < |g| && RuleDefined(g, v) && k <= |g[v].args|
    requires u !in g[v].args
    ensures ContribFrom(g, v, u, k) == 0.0
    decreases |g[v].args| - k
  {
    if k < |g[v].args| {
      ContribZero(g, v, u, k + 1);
    }
  }

  lemma {:induction false} OperandsBelow(g: Arena, v: nat)
    requires WellFormed(g) && v < |g|
    ensures forall c :: c in g[v].args ==> c < v
  {
    forall c | c in g[v].args ensures c < v {
      var k :| 0 <= k < |g[v].args| && g[v].args[k] == c;
    }
  }

  /** The chain rule's product: a local derivative times the gradient that
      arrives from above. */
  function Chain(local: real, upstream: real): real
  {
    local * upstream
  }

  // ---------------------------------------------------------------------
  // Rules as functions on the arena

  /** `h` differs from `g` in gradients at most. */
  ghost predicate SameShape(g: Arena, h: Arena)
  {
    |g| == |h| && forall i :: 0 <= i < |g| ==> h[i] == g[i].(grad := h[i].grad)
  }

  lemma {:induction false} SameShapeTrans(g: Arena, h: Arena, k: Arena)
    requires SameShape(g, h) && SameShape(h, k)
    ensures SameShape(g, k)
  {
  }

  lemma {:induction false} ShapeKeepsRules(g: Arena, h: Arena)
    requires WellFormed(g) && SameShape(g, h)
    ensures WellFormed(h)
    ensures forall v :: 0 <= v < |g| ==> RuleDefined(h, v) == RuleDefined(g, v)
  {
    forall v | 0 <= v < |g| ensures RuleDefined(h, v) == RuleDefined(g, v) {
      if g[v].op.PowOp? {
        assert h[g[v].args[0]].data == g[g[v].args[0]].data;
      }
    }
  }

  /** The effect of running the rule of `v`: every operand's gradient grows by
      its contribution times v's gradient; nothing else changes. */
  ghost function Rule(g: Arena, v: nat): (h: Arena)
    requires WellFormed(g) && v < |g| && RuleDefined(g, v)
    ensures SameShape(g, h)
  {
    seq(|g|, i requires 0 <= i < |g| => g[i].(grad := g[i].grad + Chain(Contrib(g, v, i), g[v].grad)))
  }

  /** The rules of t[i..] can all run on `g`. */
  ghost predicate RulesFrom(g: Arena, t: seq<nat>, i: nat)
    requires WellFormed(g)
  {
    forall j :: i <= j < |t| ==> t[j] < |g| && RuleDefined(g, t[j])
  }

  /** The arena after the rules of t[|t|-1], ..., t[i] ran, in that order. */
  ghost function RunDown(g: Arena, t: seq<nat>, i: nat): (h: Arena)
    requires WellFormed(g) && i <= |t| && RulesFrom(g, t, i)
    ensures SameShape(g, h)
    decreases |t| - i
  {
    if i == |t| then g
    else
      var h := RunDown(g, t, i + 1);
      ShapeKeepsRules(g, h);
      var h' := Rule(h, t[i]);
      SameShapeTrans(g, h, h');
      h'
  }

  lemma {:induction false} RunDownStep(g: Arena, t: seq<nat>, i: nat)
    requires WellFormed(g) && i < |t| && RulesFrom(g, t, i)
    ensures WellFormed(RunDown(g, t, i + 1)) && RuleDefined(RunDown(g, t, i + 1), t[i])
    ensures RunDown(g, t, i) == Rule(RunDown(g, t, i + 1), t[i])
  {
    ShapeKeepsRules(g, RunDown(g, t, i + 1));
  }

  /** Node `v` holding gradient `x`, as when its rule is about to run. */
  function WithGrad(g: Arena, v: nat, x: real): (h: Arena)
    requires v < |g|
  {
    g[v := g[v].(grad := x)]
  }

  /** `backward`'s seed: the root's gradient is set to 1.0, not added to. */
  function Seed(g: Arena, root: nat): (h: Arena)
    requires root < |g|
  {
    g[root := g[root].(grad := 1.0)]
  }

  // ---------------------------------------------------------------------
  // The reference: adjoints by the chain rule

  /** The gradient `backward(root)` leaves on node `n`. */
  ghost function Adjoint(g: Arena, root: nat, n: nat): real
    requires WellFormed(g) && root < |g| && n < |g| && RulesDefined(g, root)
    decreases |g| - n, 1
  {
    (if n == root then 1.0 else g[n].grad) + Inflow(g, root, n, n + 1)
  }

  /** The chain-rule terms that reachable consumers q >= lo of `n` add to it. */
  ghost function Inflow(g: Arena, root: nat, n: nat, lo: nat): real
    requires WellFormed(g) && root < |g| && n < lo <= |g| && RulesDefined(g, root)
    decreases |g| - n, 0, |g| - lo
  {
    if lo == |g| then 0.0
    else
      (if lo in Reach(g, root) then Chain(Contrib(g, lo, n), Adjoint(g, root, lo)) else 0.0)
      + Inflow(g, root, n, lo + 1)
  }

  /** The arena `backward(root)` leaves behind. */
  ghost function BackwardResult(g: Arena, root: nat): (h: Arena)
    requires WellFormed(g) && root < |g| && RulesDefined(g, root)
  {
    seq(|g|, i requires 0 <= i < |g| => g[i].(grad := Adjoint(g, root, i)))
  }

  // ---------------------------------------------------------------------
  // Topological order

  /** Every node of `t` comes after all of its operands. */
  ghost predicate ChildrenFirst(g: Arena, t: seq<nat>)
  {
    forall i :: 0 <= i < |t| ==> t[i] < |g| && forall c :: c in g[t[i]].args ==> c in t[..i]
  }

  ghost predicate TopoOrder(g: Arena, t: seq<nat>)
  {
    NoDup(t) && ChildrenFirst(g, t)
  }

  lemma {:induction false} TopoShape(g: Arena, h: Arena, t: seq<nat>)
    requires SameShape(g, h) && TopoOrder(g, t)
    ensures TopoOrder(h, t)
  {
    forall i | 0 <= i < |t| ensures h[t[i]].args == g[t[i]].args {
    }
  }

  /** Appending a node whose operands are all listed keeps the order. */
  lemma {:induction false} TopoSnoc(g: Arena, t: seq<nat>, v: nat)
    requires TopoOrder(g, t) && v < |g| && v !in t
    requires forall c :: c in g[v].args ==> c in t
    ensures TopoOrder(g, t + [v])
  {
    var t' := t + [v];
    assert t'[..|t|] == t;
    forall i | 0 <= i < |t| ensures t'[..i] == t[..i] {
    }
  }

  /** Bookkeeping for a list that grows at its end twice. */
  lemma {:induction false} SliceGrow(t0: seq<nat>, t1: seq<nat>, t2: seq<nat>)
    requires |t0| <= |t1| && t1[..|t0|] == t0
    requires |t1| <= |t2| && t2[..|t1|] == t1
    ensures t2[..|t0|] == t0
    ensures t2[|t0|..] == t1[|t0|..] + t2[|t1|..]
    ensures Elems(t2[|t0|..]) == Elems(t1[|t0|..]) + Elems(t2[|t1|..])
    ensures forall x :: x in t1 ==> x in t2
  {
    assert t2[..|t0|] == t2[..|t1|][..|t0|];
    ElemsAppend(t1[|t0|..], t2[|t1|..]);
    assert t2 == t1 + t2[|t1|..];
  }

  /** The state of `build_topo(v)` while it walks v's operands: `rest` are
      the operands not yet walked, `tp` the list so far, `vis` the visited
      set so far; the call started from `visited` and `topo`. */
  ghost predicate Walking(g: Arena, v: nat, visited: set<nat>, topo: seq<nat>,
                          vis: set<nat>, tp: seq<nat>, rest: set<nat>)
    requires WellFormed(g) && v < |g|
  {
    && rest <= Prev(g, v) && TopoOrder(g, tp) && Elems(tp) <= vis
    && |topo| <= |tp| && tp[..|topo|] == topo
    && vis == visited + {v} + Elems(tp[|topo|..])
    && (forall u :: u in tp[|topo|..] ==> u in Reach(g, v) && u < v)
    && (forall c :: c in Prev(g, v) && c !in rest ==> c in tp)
  }

  lemma {:induction false} WalkStart(g: Arena, v: nat, visited: set<nat>, topo: seq<nat>)
    requires WellFormed(g) && v < |g| && TopoOrder(g, topo) && Elems(topo) <= visited
    ensures Walking(g, v, visited, topo, visited + {v}, topo, Prev(g, v))
  {
    assert topo[|topo|..] == [];
    assert topo[..|topo|] == topo;
  }

  /** Walking operand `c` next meets the requirements of the recursive call. */
  lemma {:induction false} WalkPre(g: Arena, v: nat, visited: set<nat>, topo: seq<nat>,
                vis: set<nat>, tp: seq<nat>, rest: set<nat>, c: nat)
    requires WellFormed(g) && v < |g| && Walking(g, v, visited, topo, vis, tp, rest) && c in rest
    requires forall u :: u in visited && u !in topo ==> v < u
    ensures c < v && Reach(g, c) <= Reach(g, v)
    ensures forall u :: u in vis && u !in tp ==> c < u
  {
    assert c in g[v].args;
    ReachOfOperand(g, v, c);
    assert tp == topo + tp[|topo|..];
  }

  /** After the recursive call on `c`, the walk's state holds with `c` done. */
  lemma {:induction false} WalkStep(g: Arena, v: nat, visited: set<nat>, topo: seq<nat>,
                 vis0: set<nat>, tp0: seq<nat>, vis1: set<nat>, tp1: seq<nat>, rest: set<nat>, c: nat)
    requires WellFormed(g) && v < |g| && Walking(g, v, visited, topo, vis0, tp0, rest) && c in rest
    requires c < v && Reach(g, c) <= Reach(g, v)
    requires TopoOrder(g, tp1) && Elems(tp1) <= vis1
    requires |tp0| <= |tp1| && tp1[..|tp0|] == tp0 && c in tp1
    requires vis1 == vis0 + Elems(tp1[|tp0|..])
    requires forall u :: u in tp1[|tp0|..] ==> u in Reach(g, c)
    ensures Walking(g, v, visited, topo, vis1, tp1, rest - {c})
  {
    SliceGrow(topo, tp0, tp1);
  }

  /** With every operand walked, `v` is not yet listed and all of its
      operands are. */
  lemma {:induction false} WalkFresh(g: Arena, v: nat, visited: set<nat>, topo: seq<nat>, vis: set<nat>, tp: seq<nat>)
    requires WellFormed(g) && v < |g| && Walking(g, v, visited, topo, vis, tp, {})
    requires v !in visited && Elems(topo) <= visited
    ensures v !in tp
    ensures forall c :: c in g[v].args ==> c in tp
  {
    assert tp == topo + tp[|topo|..];
    assert forall c :: c in g[v].args ==> c in Prev(g, v);
  }

  /** With every operand walked, appending `v` finishes the call. */
  lemma {:induction false} WalkEnd(g: Arena, v: nat, visited: set<nat>, topo: seq<nat>, vis: set<nat>, tp: seq<nat>)
    requires WellFormed(g) && v < |g| && Walking(g, v, visited, topo, vis, tp, {})
    requires v !in visited && Elems(topo) <= visited
    ensures TopoOrder(g, tp + [v]) && Elems(tp + [v]) <= vis
    ensures |topo| <= |tp + [v]| && (tp + [v])[..|topo|] == topo
    ensures vis == visited + Elems((tp + [v])[|topo|..])
    ensures forall u :: u in (tp + [v])[|topo|..] ==> u in Reach(g, v)
  {
    WalkFresh(g, v, visited, topo, vis, tp);
    TopoSnoc(g, tp, v);
    var added := tp[|topo|..];
    assert (tp + [v])[|topo|..] == added + [v];
    assert (tp + [v])[..|topo|] == topo;
    assert Elems([v]) == {v};
    ElemsAppend(tp, [v]);
    ElemsAppend(added, [v]);
  }

  /** `build_topo(v)`: a depth-first walk guarded by `visited` that appends a
      node after all its operands.  The operands are taken from the set
      `_prev` in an order the model leaves open, as Python's set does.
      Nodes in `visited` but not yet in `topo` are the ones whose walk is in
      progress; they all lie above `v`. */
  method BuildTopo(g: Arena, v: nat, visited: set<nat>, topo: seq<nat>)
    returns (visited': set<nat>, topo': seq<nat>)
    requires WellFormed(g) && v < |g| && TopoOrder(g, topo)
    requires Elems(topo) <= visited
    requires forall u :: u in visited && u !in topo ==> v < u
    ensures TopoOrder(g, topo') && Elems(topo') <= visited'
    ensures |topo| <= |topo'| && topo'[..|topo|] == topo
    ensures v in topo'
    ensures visited' == visited + Elems(topo'[|topo|..])
    ensures forall u :: u in topo'[|topo|..] ==> u in Reach(g, v)
    ensures v !in visited ==> topo'[|topo'| - 1] == v
    decreases v
  {
    if v in visited {
      assert topo[|topo|..] == [] && topo[..|topo|] == topo;
      return visited, topo;
    }
    WalkStart(g, v, visited, topo);
    visited', topo' := visited + {v}, topo;
    var rest := Prev(g, v);
    while rest != {}
      invariant Walking(g, v, visited, topo, visited', topo', rest)
      decreases rest
    {
      var c :| c in rest;
      WalkPre(g, v, visited, topo, visited', topo', rest, c);
      ghost var vis0, tp0 := visited', topo';
      visited', topo' := BuildTopo(g, c, visited', topo');
      WalkStep(g, v, visited, topo, vis0, tp0, visited', topo', rest, c);
      rest := rest - {c};
    }
    WalkEnd(g, v, visited, topo, visited', topo');
    topo' := topo' + [v];
  }

  /** The first lines of `backward`: the walk from the root with empty
      `visited` and `topo` lists exactly the nodes reachable from the root,
      each once, operands first, the root last. */
  method Topo(g: Arena, root: nat) returns (topo: seq<nat>)
    requires WellFormed(g) && root < |g|
    ensures TopoOrder(g, topo) && Elems(topo) == Reach(g, root)
    ensures |topo| > 0 && topo[|topo| - 1] == root
  {
    var visited;
    visited, topo := BuildTopo(g, root, {}, []);
    assert topo[0..] == topo;
    assert Closed(g, Elems(topo)) by {
      forall u | u in Elems(topo) ensures u < |g| && Prev(g, u) <= Elems(topo) {
        var i :| 0 <= i < |topo| && topo[i] == u;
        assert forall c :: c in topo[..i] ==> c in topo;
      }
    }
    ReachWithinClosed(g, root, Elems(topo));
  }

  /** In reverse topological order a node's rule runs only after the rules of
      all the nodes that use it have run. */
  lemma {:induction false} ConsumersRunFirst(g: Arena, t: seq<nat>, i: nat, j: nat)
    requires TopoOrder(g, t) && i < |t| && j < |t| && t[j] in g[t[i]].args
    ensures j < i
  {
    assert t[j] in t[..i];
    var m :| 0 <= m < i && t[m] == t[j];
  }

  /** No node is an operand of itself or of a node listed before it. */
  lemma {:induction false} NotBefore(g: Arena, t: seq<nat>, i: nat, j: nat)
    requires WellFormed(g) && TopoOrder(g, t) && j <= i < |t|
    ensures t[i] !in g[t[j]].args
  {
    if j < i {
      forall m | 0 <= m < j ensures t[..j][m] != t[i] {
      }
      assert t[i] !in t[..j];
    } else {
      OperandsBelow(g, t[i]);
    }
  }

  // ---------------------------------------------------------------------
  // Facts about single rules

  lemma {:induction false} ContribShape(g: Arena, h: Arena, v: nat, u: nat, k: nat)
    requires WellFormed(g) && SameShape(g, h) && v < |g| && RuleDefined(g, v) && k <= |g[v].args|
    ensures WellFormed(h) && RuleDefined(h, v)
    ensures ContribFrom(h, v, u, k) == ContribFrom(g, v, u, k)
    decreases |g[v].args| - k
  {
    ShapeKeepsRules(g, h);
    if k < |g[v].args| {
      ContribShape(g, h, v, u, k + 1);
      var args := g[v].args;
      assert h[v] == g[v].(grad := h[v].grad);
      if g[v].op.MulOp? {
        assert h[args[0]].data == g[args[0]].data && h[args[1]].data == g[args[1]].data;
      } else if g[v].op.PowOp? {
        assert h[args[0]].data == g[args[0]].data;
      }
    }
  }

  /** A rule adds to the gradients of its operands and touches no other; the
      amount it adds depends on the data, not on what the gradients held. */
  lemma {:induction false} RuleOnlyAdds(g: Arena, h: Arena, v: nat, u: nat)
    requires WellFormed(g) && v < |g| && u < |g| && RuleDefined(g, v)
    requires SameShape(g, h) && h[v].grad == g[v].grad
    ensures WellFormed(h) && RuleDefined(h, v)
    ensures Rule(h, v)[u].grad - h[u].grad == Rule(g, v)[u].grad - g[u].grad
    ensures u !in g[v].args ==> Rule(g, v)[u] == g[u]
  {
    ContribShape(g, h, v, u, 0);
    if u !in g[v].args {
      ContribZero(g, v, u, 0);
    }
  }

  /** `a + b`: each operand receives out.grad; `a + a` receives it twice. */
  lemma {:induction false} AddRule(g: Arena, v: nat, a: nat, b: nat)
    requires WellFormed(g) && v < |g| && g[v].op == AddOp && g[v].args == [a, b]
    ensures a < v && b < v
    ensures a != b ==> Rule(g, v)[a].grad == g[a].grad + g[v].grad
    ensures a != b ==> Rule(g, v)[b].grad == g[b].grad + g[v].grad
    ensures a == b ==> Rule(g, v)[a].grad == g[a].grad + 2.0 * g[v].grad
  {
    OperandsBelow(g, v);
    ContribOfTwo(g, v, a);
    ContribOfTwo(g, v, b);
  }

  /** `a * b`: each operand receives the other's data times out.grad, and the
      square `a * a` receives twice a's data. */
  lemma {:induction false} MulRule(g: Arena, v: nat, a: nat, b: nat)
    requires WellFormed(g) && v < |g| && g[v].op == MulOp && g[v].args == [a, b]
    ensures a < v && b < v
    ensures a != b ==> Rule(g, v)[a].grad == g[a].grad + g[b].data * g[v].grad
    ensures a != b ==> Rule(g, v)[b].grad == g[b].grad + g[a].data * g[v].grad
    ensures a == b ==> Rule(g, v)[a].grad == g[a].grad + 2.0 * g[a].data * g[v].grad
  {
    OperandsBelow(g, v);
    ContribOfTwo(g, v, a);
    ContribOfTwo(g, v, b);
  }

  /** The one-operand rules: pow, tanh and exp add to their operand. */
  lemma {:induction false} UnaryRule(g: Arena, v: nat, a: nat)
    requires WellFormed(g) && v < |g| && RuleDefined(g, v) && g[v].args == [a]
    ensures a < v
    ensures g[v].op.PowOp? ==>
      Rule(g, v)[a].grad == g[a].grad + PowLocal(g[a].data, g[v].op.n) * g[v].grad
    ensures g[v].op.TanhOp? ==>
      Rule(g, v)[a].grad == g[a].grad + (1.0 - g[v].op.t * g[v].op.t) * g[v].grad
    ensures g[v].op.ExpOp? ==> Rule(g, v)[a].grad == g[a].grad + g[v].data * g[v].grad
  {
    OperandsBelow(g, v);
    ContribOfOne(g, v, a);
  }

  // ---------------------------------------------------------------------
  // backward computes the adjoints

  /** Seeding the root changes no rule. */
  lemma {:induction false} SeedKeepsRules(g: Arena, root: nat, t: seq<nat>)
    requires WellFormed(g) && root < |g| && RulesDefined(g, root)
    requires ChildrenFirst(g, t) && Elems(t) <= Reach(g, root)
    ensures SameShape(g, Seed(g, root)) && WellFormed(Seed(g, root))
    ensures RulesFrom(Seed(g, root), t, 0)
  {
    var s := Seed(g, root);
    assert SameShape(g, s);
    ShapeKeepsRules(g, s);
    forall j | 0 <= j < |t| ensures t[j] < |s| && RuleDefined(s, t[j]) {
      assert t[j] in Elems(t);
    }
  }

  /** Once the walk passes node t[i], no later rule touches its gradient. */
  lemma {:induction false} UntouchedAfter(s: Arena, t: seq<nat>, i: nat, j: nat)
    requires WellFormed(s) && TopoOrder(s, t) && RulesFrom(s, t, 0) && i < |t| && j <= i + 1
    ensures RunDown(s, t, j)[t[i]].grad == RunDown(s, t, i + 1)[t[i]].grad
    decreases i + 1 - j
  {
    if j < i + 1 {
      UntouchedAfter(s, t, i, j + 1);
      var h := RunDown(s, t, j + 1);
      ShapeKeepsRules(s, h);
      NotBefore(s, t, i, j);
      ContribZero(h, t[j], t[i], 0);
    }
  }

  /** The terms node `n` collects: each reachable consumer's contribution
      times the consumer's gradient in `f`. */
  ghost function Pushed(g: Arena, root: nat, f: Arena, n: nat): nat -> real
    requires WellFormed(g) && root < |g| && RulesDefined(g, root)
  {
    q => if q < |g| && q < |f| && q in Reach(g, root) then Chain(Contrib(g, q, n), f[q].grad) else 0.0
  }

  /** The setting of the backward pass: `t` lists the nodes the root reaches
      in topological order, and every rule among them can run. */
  ghost predicate Setting(g: Arena, root: nat, t: seq<nat>)
  {
    && WellFormed(g) && root < |g| && RulesDefined(g, root)
    && TopoOrder(g, t) && Elems(t) == Reach(g, root)
    && WellFormed(Seed(g, root)) && RulesFrom(Seed(g, root), t, 0)
  }

  /** Finality: when the rule of t[i] runs, t[i]'s gradient already holds the
      value the whole walk leaves there. */
  lemma {:induction false} GradientFinal(g: Arena, root: nat, t: seq<nat>, i: nat)
    requires Setting(g, root, t) && i < |t|
    ensures RunDown(Seed(g, root), t, i + 1)[t[i]].grad == RunDown(Seed(g, root), t, 0)[t[i]].grad
  {
    var s := Seed(g, root);
    assert SameShape(g, s);
    TopoShape(g, s, t);
    UntouchedAfter(s, t, i, 0);
  }

  /** The rule of t[i] adds to node `n` exactly the term `Pushed` assigns
      to t[i], computed from t[i]'s final gradient. */
  lemma {:induction false} AccumulateStep(g: Arena, root: nat, t: seq<nat>, i: nat, n: nat)
    requires Setting(g, root, t) && i < |t| && n < |g|
    ensures RunDown(Seed(g, root), t, i)[n].grad
      == RunDown(Seed(g, root), t, i + 1)[n].grad + Pushed(g, root, RunDown(Seed(g, root), t, 0), n)(t[i])
  {
    var s := Seed(g, root);
    var f := RunDown(s, t, 0);
    var h := RunDown(s, t, i + 1);
    var v := t[i];
    assert SameShape(g, s);
    SameShapeTrans(g, s, h);
    assert v in Elems(t);
    GradientFinal(g, root, t, i);
    RunDownStep(s, t, i);
    PushedAt(g, root, f, n, v, h[v].grad);
    RuleStepAt(g, h, v, n, Pushed(g, root, f, n)(v));
  }

  /** After the rules of t[i..] ran, each gradient is its seed value plus the
      terms pushed by those rules, each computed from a final gradient. */
  lemma {:induction false} Accumulated(g: Arena, root: nat, t: seq<nat>, i: nat, n: nat)
    requires Setting(g, root, t) && i <= |t| && n < |g|
    ensures RunDown(Seed(g, root), t, i)[n].grad
      == Seed(g, root)[n].grad + SumSeq(t[i..], Pushed(g, root, RunDown(Seed(g, root), t, 0), n))
    decreases |t| - i
  {
    var s := Seed(g, root);
    var p := Pushed(g, root, RunDown(s, t, 0), n);
    if i < |t| {
      var j := i + 1;
      Accumulated(g, root, t, j, n);
      AccumulateStep(g, root, t, i, n);
      assert t[i..][1..] == t[j..];
      assert SumSeq(t[i..], p) == p(t[i]) + SumSeq(t[j..], p);
    } else {
      assert t[i..] == [];
    }
  }

  /** The rule of `v` run on an arena of the same shape as `g` adds `d` to
      node `u` when `d` is u's contribution times v's gradient there. */
  lemma {:induction false} RuleStepAt(g: Arena, h: Arena, v: nat, u: nat, d: real)
    requires WellFormed(g) && SameShape(g, h) && v < |g| && RuleDefined(g, v) && u < |g|
    requires d == Chain(Contrib(g, v, u), h[v].grad)
    ensures WellFormed(h) && RuleDefined(h, v)
    ensures Rule(h, v)[u].grad == h[u].grad + d
  {
    ContribShape(g, h, v, u, 0);
  }

  lemma {:induction false} PushedAt(g: Arena, root: nat, f: Arena, n: nat, q: nat, x: real)
    requires WellFormed(g) && root < |g| && RulesDefined(g, root)
    requires q < |g| && q < |f| && q in Reach(g, root) && f[q].grad == x
    ensures Pushed(g, root, f, n)(q) == Chain(Contrib(g, q, n), x)
  {
  }

  /** Pushed terms come only from nodes above `n`. */
  lemma {:induction false} PushedBelowVanish(g: Arena, root: nat, f: Arena, n: nat)
    requires WellFormed(g) && root < |g| && RulesDefined(g, root) && n < |g|
    ensures forall q :: 0 <= q < n + 1 && q in Reach(g, root) ==> Pushed(g, root, f, n)(q) == 0.0
  {
    forall q | 0 <= q < n + 1 && q in Reach(g, root)
      ensures Pushed(g, root, f, n)(q) == 0.0
    {
      if q < |g| {
        OperandsBelow(g, q);
        ContribZero(g, q, n, 0);
      }
    }
  }

  /** Once the consumers' gradients are their adjoints, the pushed terms sum
      to the reference inflow. */
  lemma {:induction false} PushedIsInflow(g: Arena, root: nat, f: Arena, n: nat, lo: nat)
    requires WellFormed(g) && root < |g| && RulesDefined(g, root) && n < lo <= |g| && |f| == |g|
    requires forall q :: n < q < |g| ==> f[q].grad == Adjoint(g, root, q)
    ensures SumOver(lo, |g|, Reach(g, root), Pushed(g, root, f, n)) == Inflow(g, root, n, lo)
    decreases |g| - lo
  {
    if lo < |g| {
      PushedIsInflow(g, root, f, n, lo + 1);
    }
  }

  /** The gradients the reverse walk leaves are the adjoints. */
  lemma {:induction false} WalkGivesAdjoint(g: Arena, root: nat, t: seq<nat>, n: nat)
    requires Setting(g, root, t) && n < |g|
    ensures RunDown(Seed(g, root), t, 0)[n].grad == Adjoint(g, root, n)
    decreases |g| - n
  {
    var f := RunDown(Seed(g, root), t, 0);
    forall q | n < q < |g| ensures f[q].grad == Adjoint(g, root, q) {
      WalkGivesAdjoint(g, root, t, q);
    }
    Accumulated(g, root, t, 0, n);
    assert t[0..] == t;
    SumIsInflow(g, root, t, f, n);
  }

  /** A list of the nodes reachable from `root` names only nodes of `g`. */
  lemma {:induction false} ListedInGraph(g: Arena, root: nat, t: seq<nat>)
    requires WellFormed(g) && root < |g| && Elems(t) == Reach(g, root)
    ensures forall i :: 0 <= i < |t| ==> t[i] < |g|
  {
    forall i | 0 <= i < |t| ensures t[i] < |g| {
      assert t[i] in Elems(t);
    }
  }

  /** Summed in walk order, the pushed terms are the reference inflow. */
  lemma {:induction false} SumIsInflow(g: Arena, root: nat, t: seq<nat>, f: Arena, n: nat)
    requires WellFormed(g) && root < |g| && RulesDefined(g, root) && n < |g| && |f| == |g|
    requires TopoOrder(g, t) && Elems(t) == Reach(g, root)
    requires forall q :: n < q < |g| ==> f[q].grad == Adjoint(g, root, q)
    ensures SumSeq(t, Pushed(g, root, f, n)) == Inflow(g, root, n, n + 1)
  {
    var p := Pushed(g, root, f, n);
    var m := n + 1;
    ListedInGraph(g, root, t);
    SumSeqIsSumOver(t, |g|, p);
    PushedBelowVanish(g, root, f, n);
    SumOverSkip(0, m, |g|, Reach(g, root), p);
    PushedIsInflow(g, root, f, n, m);
  }

  /** The whole backward pass: seeding and the reverse walk over any
      topological order of the reachable nodes yield `BackwardResult`. */
  lemma {:induction false} BackwardComputesAdjoint(g: Arena, root: nat, t: seq<nat>)
    requires WellFormed(g) && root < |g| && RulesDefined(g, root)
    requires TopoOrder(g, t) && Elems(t) == Reach(g, root)
    ensures WellFormed(Seed(g, root)) && RulesFrom(Seed(g, root), t, 0)
    ensures RunDown(Seed(g, root), t, 0) == BackwardResult(g, root)
  {
    SeedKeepsRules(g, root, t);
    var s := Seed(g, root);
    var f := RunDown(s, t, 0);
    forall n | 0 <= n < |g| ensures f[n] == BackwardResult(g, root)[n] {
      WalkGivesAdjoint(g, root, t, n);
      assert s[n] == g[n].(grad := s[n].grad);
    }
  }

  /** One more step of the reverse walk: the rule of t[i] runs on what the
      later rules left. */
  lemma {:induction false} RunDownNext(s: Arena, t: seq<nat>, i: nat, h: Arena)
    requires WellFormed(s) && i < |t| && t[i] < |s| && RulesFrom(s, t, i + 1)
    requires h == RunDown(s, t, i + 1) && RuleDefined(h, t[i])
    ensures WellFormed(h) && RulesFrom(s, t, i) && Rule(h, t[i]) == RunDown(s, t, i)
  {
    ShapeKeepsRules(s, h);
    RunDownStep(s, t, i);
  }

  /** A rule that cannot run on the way down is a rule below the root that
      is undefined on the arena the pass started from. */
  lemma {:induction false} WalkBlocked(g: Arena, s: Arena, h: Arena, root: nat, t: seq<nat>, i: nat)
    requires WellFormed(g) && SameShape(g, s) && SameShape(s, h) && root < |g|
    requires Elems(t) == Reach(g, root) && i < |t| && t[i] < |g| && !RuleDefined(h, t[i])
    ensures SameShape(g, h) && !RulesDefined(g, root)
  {
    SameShapeTrans(g, s, h);
    ShapeKeepsRules(g, h);
    assert t[i] in Elems(t);
  }

  /** A walk that ran every rule of the order shows that every rule below
      the root is defined. */
  lemma {:induction false} WalkedAllRules(g: Arena, s: Arena, root: nat, t: seq<nat>)
    requires WellFormed(g) && SameShape(g, s) && root < |g|
    requires WellFormed(s) && Elems(t) == Reach(g, root) && RulesFrom(s, t, 0)
    ensures RulesDefined(g, root)
  {
    ShapeKeepsRules(g, s);
    forall u | u in Reach(g, root) ensures RuleDefined(g, u) {
      assert u in Elems(t);
      var j :| 0 <= j < |t| && t[j] == u;
    }
  }

  // ---------------------------------------------------------------------
  // Consequences for the caller

  lemma {:induction false} InflowZero(g: Arena, root: nat, n: nat, lo: nat)
    requires WellFormed(g) && root < |g| && RulesDefined(g, root) && n < lo <= |g|
    requires forall q :: lo <= q < |g| && q in Reach(g, root) ==> Contrib(g, q, n) == 0.0
    ensures Inflow(g, root, n, lo) == 0.0
    decreases |g| - lo
  {
    if lo < |g| {
      InflowZero(g, root, n, lo + 1);
    }
  }

  /** A node that the root does not reach keeps its gradient. */
  lemma {:induction false} UnreachedUntouched(g: Arena, root: nat, n: nat)
    requires WellFormed(g) && root < |g| && RulesDefined(g, root) && n < |g|
    requires n !in Reach(g, root)
    ensures Adjoint(g, root, n) == g[n].grad
  {
    ReachClosed(g, root);
    forall q | n < q < |g| && q in Reach(g, root) ensures Contrib(g, q, n) == 0.0 {
      assert n !in Prev(g, q);
      ContribZero(g, q, n, 0);
    }
    InflowZero(g, root, n, n + 1);
  }

  /** The root's gradient after `backward` is exactly 1.0, whatever it was. */
  lemma {:induction false} AdjointOfRoot(g: Arena, root: nat)
    requires WellFormed(g) && root < |g| && RulesDefined(g, root)
    ensures Adjoint(g, root, root) == 1.0
  {
    InflowZero(g, root, root, root + 1);
  }

  /** When the root is the only reachable node above `n` that uses it, `n`
      gets its old gradient plus the root's local derivative. */
  lemma {:induction false} SoleConsumer(g: Arena, root: nat, n: nat)
    requires WellFormed(g) && root < |g| && RulesDefined(g, root) && n < root
    requires forall q :: n < q < root && q in Reach(g, root) ==> n !in g[q].args
    ensures Adjoint(g, root, n) == g[n].grad + Contrib(g, root, n)
  {
    AdjointOfRoot(g, root);
    InflowZero(g, root, n, root + 1);
    InflowBelowRoot(g, root, n, n + 1);
  }

  lemma {:induction false} InflowBelowRoot(g: Arena, root: nat, n: nat, lo: nat)
    requires WellFormed(g) && root < |g| && RulesDefined(g, root) && n < lo <= root
    requires forall q :: n < q < root && q in Reach(g, root) ==> n !in g[q].args
    requires Adjoint(g, root, root) == 1.0 && Inflow(g, root, n, root + 1) == 0.0
    ensures Inflow(g, root, n, lo) == Contrib(g, root, n)
    decreases root - lo
  {
    if lo < root {
      InflowBelowRoot(g, root, n, lo + 1);
      if lo in Reach(g, root) {
        ContribZero(g, lo, n, 0);
      }
    }
  }

  /** When `q` is the only reachable node above `n` that uses it, `n` gets
      its old gradient (1.0 for the root) plus q's local derivative times
      q's own adjoint. */
  lemma {:induction false} SingleConsumer(g: Arena, root: nat, n: nat, q: nat)
    requires WellFormed(g) && root < |g| && RulesDefined(g, root) && n < q < |g| && q in Reach(g, root)
    requires forall p :: n < p < |g| && p != q && p in Reach(g, root) ==> n !in g[p].args
    ensures Adjoint(g, root, n) == (if n == root then 1.0 else g[n].grad) + Chain(Contrib(g, q, n), Adjoint(g, root, q))
  {
    InflowOne(g, root, n, q, n + 1);
  }

  lemma {:induction false} InflowOne(g: Arena, root: nat, n: nat, q: nat, lo: nat)
    requires WellFormed(g) && root < |g| && RulesDefined(g, root) && n < lo <= |g| && n < q < |g| && q in Reach(g, root)
    requires forall p :: n < p < |g| && p != q && p in Reach(g, root) ==> n !in g[p].args
    ensures Inflow(g, root, n, lo) == if lo <= q then Chain(Contrib(g, q, n), Adjoint(g, root, q)) else 0.0
    decreases |g| - lo
  {
    if lo < |g| {
      InflowOne(g, root, n, q, lo + 1);
      if lo != q && lo in Reach(g, root) {
        ContribZero(g, lo, n, 0);
      }
    }
  }

  /** A root whose operand slots all hold `a` reaches only itself and what
      `a` reaches. */
  lemma {:induction false} ReachOfRepeated(g: Arena, root: nat, a: nat)
    requires WellFormed(g) && root < |g| && a in g[root].args
    requires forall c :: c in g[root].args ==> c == a
    ensures a < root
    ensures forall q :: q in Reach(g, root) && q != root ==> q <= a
  {
    ReachOfOperand(g, root, a);
  }

  /** `b = a + a; b.backward()` leaves a.grad increased by 2. */
  lemma {:induction false} AddSelfGradient(g: Arena, root: nat, a: nat)
    requires WellFormed(g) && root < |g| && g[root].op == AddOp && g[root].args == [a, a]
    requires RulesDefined(g, root)
    ensures a < root && Adjoint(g, root, a) == g[a].grad + 2.0
  {
    ReachOfRepeated(g, root, a);
    ContribOfTwo(g, root, a);
    SoleConsumer(g, root, a);
  }

  /** `o = n.tanh(); o.backward()` leaves n.grad increased by 1 - o.data**2. */
  lemma {:induction false} TanhGradient(g: Arena, root: nat, n: nat)
    requires WellFormed(g) && root < |g| && g[root].op.TanhOp? && g[root].args == [n]
    requires g[root].data == g[root].op.t
    requires RulesDefined(g, root)
    ensures n < root && Adjoint(g, root, n) == g[n].grad + (1.0 - g[root].data * g[root].data)
  {
    ReachOfRepeated(g, root, n);
    ContribOfOne(g, root, n);
    SoleConsumer(g, root, n);
  }

  /** `a - b` for two distinct nodes, built as `r`; `s` is that graph with
      gradient `x` on the result.  Running the rule of the sum node and then
      that of `-b`'s product node adds `x` to a's gradient and `-x` to b's. */
  lemma {:induction false} SubGradient(g: Arena, a: nat, b: nat, x: real, r: Built, s: Arena)
    requires WellFormed(g) && a < |g| && b < |g| && a != b && r == Value.Sub(g, a, Ref(b))
    requires r.node < |r.arena| && s == WithGrad(r.arena, r.node, x)
    ensures r.node == |g| + 2 && WellFormed(s) && RuleDefined(s, r.node)
    ensures WellFormed(Rule(s, r.node)) && RuleDefined(Rule(s, r.node), |g| + 1)
    ensures Rule(Rule(s, r.node), |g| + 1)[a].grad == g[a].grad + x
    ensures Rule(Rule(s, r.node), |g| + 1)[b].grad == g[b].grad - x
  {
    var h := r.arena;
    assert h[a] == h[..|g|][a] && h[b] == h[..|g|][b];
    assert SameShape(h, s);
    ShapeKeepsRules(h, s);
    SubRules(s, r.node, |g| + 1, |g|, a, b);
  }

  /** The two rules of a subtraction node `v = a + n`, `n = b * leaf`, with
      the leaf holding -1 and `n` not yet holding any gradient. */
  lemma {:induction false} SubRules(s: Arena, v: nat, n: nat, leaf: nat, a: nat, b: nat)
    requires WellFormed(s) && v < |s| && a < |s| && n < |s| && b < |s| && leaf < |s|
    requires s[v].op == AddOp && s[v].args == [a, n]
    requires s[n].op == MulOp && s[n].args == [b, leaf] && s[leaf].data == -1.0 && s[n].grad == 0.0
    requires a != b && a != n && a != leaf && b != leaf
    ensures RuleDefined(s, v) && WellFormed(Rule(s, v)) && RuleDefined(Rule(s, v), n)
    ensures Rule(Rule(s, v), n)[a].grad == s[a].grad + s[v].grad
    ensures Rule(Rule(s, v), n)[b].grad == s[b].grad - s[v].grad
  {
    AddRule(s, v, a, n);
    var t := Rule(s, v);
    ShapeKeepsRules(s, t);
    RuleOnlyAdds(s, s, v, b);
    MulRule(t, n, b, leaf);
    RuleOnlyAdds(t, t, n, a);
  }

  /** `a / b` for two distinct nodes, b nonzero, built as `r`; `s` is that
      graph with gradient `x` on the result.  Running the rule of the product
      node and then that of `b ** -1` adds `x / b` to a's gradient and
      `-x * a / b**2` to b's. */
  lemma {:induction false} DivGradient(g: Arena, a: nat, b: nat, x: real, r: Built, s: Arena)
    requires WellFormed(g) && a < |g| && b < |g| && a != b && Value.Div(g, a, Ref(b)) == Ok(r)
    requires r.node < |r.arena| && s == WithGrad(r.arena, r.node, x)
    ensures r.node == |g| + 1 && WellFormed(s) && RuleDefined(s, r.node)
    ensures WellFormed(Rule(s, r.node)) && RuleDefined(Rule(s, r.node), |g|)
    ensures Rule(Rule(s, r.node), |g|)[a].grad == g[a].grad + x / g[b].data
    ensures Rule(Rule(s, r.node), |g|)[b].grad == g[b].grad - x * g[a].data / (g[b].data * g[b].data)
  {
    DivShape(g, a, b, r);
    DivAt(g, a, b, x, r, s);
  }

  /** What `a / b` builds on a Value `b`, as facts about its nodes. */
  lemma {:induction false} DivShape(g: Arena, a: nat, b: nat, r: Built)
    requires WellFormed(g) && a < |g| && b < |g| && Value.Div(g, a, Ref(b)) == Ok(r)
    ensures g[b].data != 0.0 && WellFormed(r.arena) && |r.arena| == |g| + 2 && r.node == |g| + 1
    ensures r.arena[a] == g[a] && r.arena[b] == g[b]
    ensures r.arena[|g|] == Node(1.0 / g[b].data, 0.0, [b], PowOp(-1))
    ensures r.arena[r.node].op == MulOp && r.arena[r.node].args == [a, |g|]
  {
    assert r.arena[a] == r.arena[..|g|][a] && r.arena[b] == r.arena[..|g|][b];
  }

  lemma {:induction false} DivAt(g: Arena, a: nat, b: nat, x: real, r: Built, s: Arena)
    requires a < |g| && b < |g| && a != b && g[b].data != 0.0
    requires WellFormed(r.arena) && |r.arena| == |g| + 2 && r.node == |g| + 1
    requires r.arena[a] == g[a] && r.arena[b] == g[b]
    requires r.arena[|g|] == Node(1.0 / g[b].data, 0.0, [b], PowOp(-1))
    requires r.arena[r.node].op == MulOp && r.arena[r.node].args == [a, |g|]
    requires s == WithGrad(r.arena, r.node, x)
    ensures WellFormed(s) && RuleDefined(s, r.node)
    ensures WellFormed(Rule(s, r.node)) && RuleDefined(Rule(s, r.node), |g|)
    ensures Rule(Rule(s, r.node), |g|)[a].grad == g[a].grad + x / g[b].data
    ensures Rule(Rule(s, r.node), |g|)[b].grad == g[b].grad - x * g[a].data / (g[b].data * g[b].data)
  {
    assert SameShape(r.arena, s);
    ShapeKeepsRules(r.arena, s);
    DivRules(s, r.node, |g|, a, b, x, g[b].data, g[a].data, g[a].grad, g[b].grad);
  }

  /** The two rules of a division node `v = a * p`, `p = b ** -1`, with `p`
      not yet holding any gradient; `x` is v's gradient, `y` and `z` are the
      data of `b` and `a`, `ga` and `gb` their gradients. */
  lemma {:induction false} DivRules(s: Arena, v: nat, p: nat, a: nat, b: nat, x: real, y: real, z: real, ga: real, gb: real)
    requires WellFormed(s) && v < |s| && a < |s| && p < |s| && b < |s|
    requires s[v].op == MulOp && s[v].args == [a, p]
    requires s[p].op == PowOp(-1) && s[p].args == [b] && s[p].grad == 0.0
    requires y != 0.0 && s[p].data == 1.0 / y
    requires x == s[v].grad && y == s[b].data && z == s[a].data && ga == s[a].grad && gb == s[b].grad
    requires a != b && a != p
    ensures RuleDefined(s, v) && WellFormed(Rule(s, v)) && RuleDefined(Rule(s, v), p)
    ensures Rule(Rule(s, v), p)[a].grad == ga + x / y
    ensures Rule(Rule(s, v), p)[b].grad == gb - x * z / (y * y)
  {
    MulRule(s, v, a, p);
    var t := Rule(s, v);
    ShapeKeepsRules(s, t);
    RuleOnlyAdds(s, s, v, b);
    assert t[p].grad == z * x;
    UnaryRule(t, p, b);
    RuleOnlyAdds(t, t, p, a);
    InverseSquare(y);
    DivArith(x, y, z);
  }

  lemma {:induction false} DivArith(x: real, y: real, z: real)
    requires y != 0.0
    ensures (-1.0 / (y * y)) * (z * x) == -(x * z / (y * y))
    ensures (1.0 / y) * x == x / y
  {
  }

  /** The local derivative of `y ** -1`, written out. */
  lemma {:induction false} InverseSquare(y: real)
    requires y != 0.0
    ensures PowLocal(y, -1) == -1.0 / (y * y)
  {
    assert Value.IntPow(y, 2) == y * y by {
      assert Value.IntPow(y, 1) == y;
    }
  }

  // ---------------------------------------------------------------------
  // The mutable graph

  /** `node.grad += d` on node `i`. */
  function Bump(g: Arena, i: nat, d: real): (h: Arena)
    requires i < |g|
    ensures |h| == |g| && h[i].grad == g[i].grad + d
    ensures forall j :: 0 <= j < |g| ==> h[j] == g[j].(grad := h[j].grad)
    ensures forall j :: 0 <= j < |g| && j != i ==> h[j] == g[j]
  {
    g[i := g[i].(grad := g[i].grad + d)]
  }

  /** The two updates of a two-operand rule amount to `Rule`. */
  lemma {:induction false} BinaryUpdate(g: Arena, v: nat, d0: real, d1: real)
    requires WellFormed(g) && v < |g| && RuleDefined(g, v) && |g[v].args| == 2
    requires d0 == Local(g, v, 0) * g[v].grad && d1 == Local(g, v, 1) * g[v].grad
    ensures g[v].args[0] < |g| && g[v].args[1] < |g|
    ensures Bump(Bump(g, g[v].args[0], d0), g[v].args[1], d1) == Rule(g, v)
  {
    var h := Bump(Bump(g, g[v].args[0], d0), g[v].args[1], d1);
    forall u | 0 <= u < |g| ensures h[u] == Rule(g, v)[u] {
      BinaryAt(g, v, d0, d1, u);
    }
  }

  /** The same, for one node `u`. */
  lemma {:induction false} BinaryAt(g: Arena, v: nat, d0: real, d1: real, u: nat)
    requires WellFormed(g) && v < |g| && RuleDefined(g, v) && |g[v].args| == 2 && u < |g|
    requires d0 == Local(g, v, 0) * g[v].grad && d1 == Local(g, v, 1) * g[v].grad
    ensures g[v].args[0] < |g| && g[v].args[1] < |g|
    ensures Bump(Bump(g, g[v].args[0], d0), g[v].args[1], d1)[u] == Rule(g, v)[u]
  {
    var a0, a1, c := g[v].args[0], g[v].args[1], g[v].grad;
    var l0, l1 := Local(g, v, 0), Local(g, v, 1);
    var h1 := Bump(g, a0, d0);
    var h := Bump(h1, a1, d1);
    ContribOfTwo(g, v, u);
    var k := Contrib(g, v, u);
    if u == a0 && u == a1 {
      assert k == l0 + l1;
      Distribute(l0, l1, c);
      assert h[u].grad == g[u].grad + Chain(k, c);
    } else if u == a0 {
      assert k == l0;
      assert h[u].grad == g[u].grad + Chain(k, c);
    } else if u == a1 {
      assert k == l1;
      assert h[u].grad == g[u].grad + Chain(k, c);
    } else {
      assert k == 0.0;
      assert h[u].grad == g[u].grad + Chain(k, c);
    }
  }

  lemma {:induction false} Distribute(x: real, y: real, z: real)
    ensures (x + y) * z == x * z + y * z
  {
  }

  /** The update of a one-operand rule amounts to `Rule`. */
  lemma {:induction false} UnaryUpdate(g: Arena, v: nat, d: real)
    requires WellFormed(g) && v < |g| && RuleDefined(g, v) && |g[v].args| == 1
    requires d == Local(g, v, 0) * g[v].grad
    ensures g[v].args[0] < |g|
    ensures Bump(g, g[v].args[0], d) == Rule(g, v)
  {
    var h := Bump(g, g[v].args[0], d);
    forall u | 0 <= u < |g| ensures h[u] == Rule(g, v)[u] {
      ContribOfOne(g, v, u);
    }
  }

  /** A leaf's rule changes nothing. */
  lemma {:induction false} LeafUpdate(g: Arena, v: nat)
    requires WellFormed(g) && v < |g| && g[v].op == Leaf
    ensures g == Rule(g, v)
  {
    forall u | 0 <= u < |g| ensures g[u] == Rule(g, v)[u] {
      assert ContribFrom(g, v, u, 0) == 0.0;
    }
  }

  /** All `Value` objects alive in the program, whose `grad` fields the
      backward pass and whose `data` fields the training step update in
      place. */
  class Tape {
    var nodes: Arena

    constructor (g: Arena)
      ensures nodes == g
    {
      nodes := g;
    }

    /** `v._backward()`: the closure the op installed when `v` was built. */
    method RunRule(v: nat)
      requires WellFormed(nodes) && v < |nodes| && RuleDefined(nodes, v)
      modifies this
      ensures nodes == Rule(old(nodes), v)
    {
      ghost var g := nodes;
      var out := nodes[v];
      match out.op {
        case Leaf =>
          LeafUpdate(g, v);
        case AddOp =>
          var d := 1.0 * out.grad;
          nodes := Bump(nodes, out.args[0], d);
          nodes := Bump(nodes, out.args[1], d);
          BinaryUpdate(g, v, d, d);
        case MulOp =>
          var a, b := out.args[0], out.args[1];
          var d0 := nodes[b].data * out.grad;
          assert d0 == Local(g, v, 0) * g[v].grad;
          nodes := Bump(nodes, a, d0);
          var d1 := nodes[a].data * out.grad;
          assert d1 == Local(g, v, 1) * g[v].grad;
          nodes := Bump(nodes, b, d1);
          BinaryUpdate(g, v, d0, d1);
        case PowOp(n) =>
          var a := out.args[0];
          var d := PowLocal(nodes[a].data, n) * out.grad;
          assert d == Local(g, v, 0) * g[v].grad;
          nodes := Bump(nodes, a, d);
          UnaryUpdate(g, v, d);
        case TanhOp(t) =>
          var d := (1.0 - t * t) * out.grad;
          assert d == Local(g, v, 0) * g[v].grad;
          nodes := Bump(nodes, out.args[0], d);
          UnaryUpdate(g, v, d);
        case ExpOp =>
          var d := out.data * out.grad;
          assert d == Local(g, v, 0) * g[v].grad;
          nodes := Bump(nodes, out.args[0], d);
          UnaryUpdate(g, v, d);
      }
    }

    /** `backward()` on node `root`: sort, seed the root with 1.0, then run
        every rule in reverse topological order.  Python raises when a rule
        divides by zero; here the walk stops there and reports it. */
    method Backward(root: nat) returns (ok: bool)
      requires WellFormed(nodes) && root < |nodes|
      modifies this
      ensures ok == RulesDefined(old(nodes), root)
      ensures ok ==> nodes == BackwardResult(old(nodes), root)
      ensures SameShape(old(nodes), nodes)
    {
      ghost var g := nodes;
      var topo := Topo(nodes, root);
      nodes := nodes[root := nodes[root].(grad := 1.0)];
      ghost var s := nodes;
      assert SameShape(g, s);
      ShapeKeepsRules(g, s);
      var i := |topo|;
      while i > 0
        invariant 0 <= i <= |topo|
        invariant RulesFrom(s, topo, i)
        invariant nodes == RunDown(s, topo, i)
      {
        i := i - 1;
        if !RuleDefined(nodes, topo[i]) {
          WalkBlocked(g, s, nodes, root, topo, i);
          return false;
        }
        RunDownNext(s, topo, i, nodes);
        RunRule(topo[i]);
      }
      WalkedAllRules(g, s, root, topo);
      BackwardComputesAdjoint(g, root, topo);
      return true;
    }
  }
}
