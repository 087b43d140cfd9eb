/**
 * The scalar computation graph shared by both versions of `Value`.
 *
 * Python allocates every `Value` as a heap object that points at its
 * operands.  Here all nodes live in one arena, a sequence indexed by
 * allocation order: a node can only name nodes that existed when it was
 * built, so every operand index is smaller than the node's own index and
 * the graph is acyclic by construction.
 */
module Core {

  /** The operation that produced a node; it decides the node's backward rule.
      `TanhOp` keeps the value `t` its rule captured when the node was built. */
  datatype Op = Leaf | AddOp | MulOp | PowOp(n: int) | TanhOp(t: real) | ExpOp

  /** One `Value`: its data, its gradient accumulator, the operands in the
      order its backward rule uses them, and its op tag. */
  datatype Node = Node(data: real, grad: real, args: seq<nat>, op: Op)

  type Arena = seq<Node>

  /** What is produced by an operation: the grown arena and the new node. */
  datatype Built = Built(arena: Arena, node: nat)

  /** A right-hand operand as Python receives it: a `Value` or a plain number. */
  datatype Operand = Ref(i: nat) | Num(x: real)

  datatype Error =
    | UnsupportedOperand   // the `assert isinstance(other, (int, float))` in `__pow__`
    | ZeroDivision         // `0.0 ** n` with a negative `n`
    | NotIterable          // iterating over a bare `Value`
    | NoAttribute          // `.data` or `.backward` asked of a plain number
    | ListOperand          // arithmetic with a Python list as an operand

  datatype Result<T> = Ok(value: T) | Err(error: Error)

  function Arity(op: Op): nat
  {
    match op
    case Leaf => 0
    case AddOp => 2
    case MulOp => 2
    case _ => 1
  }

  /** Every node has as many operands as its op takes, all built before it. */
  predicate WellFormed(g: Arena)
  {
    forall i :: 0 <= i < |g| ==>
      |g[i].args| == Arity(g[i].op) &&
      forall k :: 0 <= k < |g[i].args| ==> g[i].args[k] < i
  }

  /** Python's `_prev`: the operands as a set. */
  function Prev(g: Arena, v: nat): set<nat>
    requires v < |g|
  {
    set c | c in g[v].args
  }

  /** `g` is an unchanged prefix of `h`: nothing that existed was touched. */
  predicate Extends(g: Arena, h: Arena)
  {
    |g| <= |h| && h[..|g|] == g
  }

  predicate ValidOperand(g: Arena, o: Operand)
  {
    o.Ref? ==> o.i < |g|
  }

  function OperandData(g: Arena, o: Operand): real
    requires ValidOperand(g, o)
  {
    match o
    case Ref(i) => g[i].data
    case Num(x) => x
  }

  /** The nodes reachable from `v` through operands, `v` included. */
  ghost function Reach(g: Arena, v: nat): (r: set<nat>)
    requires WellFormed(g) && v < |g|
    ensures v in r
    ensures forall u :: u in r ==> u <= v
    decreases v
  {
    {v} + set c, u | c in g[v].args && u in Reach(g, c) :: u
  }

  /** A set of nodes that contains the operands of each of its members. */
  ghost predicate Closed(g: Arena, s: set<nat>)
  {
    forall u :: u in s ==> u < |g| && Prev(g, u) <= s
  }

  /** `Value.__init__`: a new node with the given data, operands and op, and
      a gradient of 0.0, appended after every node that already exists. */
  function Init(g: Arena, data: real, children: seq<nat>, op: Op): (h: Arena)
    requires WellFormed(g)
    requires |children| == Arity(op) && forall c :: c in children ==> c < |g|
    ensures WellFormed(h) && Extends(g, h) && |h| == |g| + 1
    ensures h[|g|].data == data && h[|g|].grad == 0.0 && h[|g|].op == op
    ensures h[|g|].args == children && Prev(h, |g|) == set c | c in children
  {
    var h := g + [Node(data, 0.0, children, op)];
    assert forall k :: 0 <= k < |children| ==> children[k] in children;
    assert h[..|g|] == g;
    h
  }

  lemma {:induction false} ExtendsTransitive(g: Arena, h: Arena, k: Arena)
    requires Extends(g, h) && Extends(h, k)
    ensures Extends(g, k)
  {
    assert k[..|g|] == k[..|h|][..|g|];
  }

  lemma {:induction false} ExtendsKeepsOperand(g: Arena, h: Arena, o: Operand)
    requires Extends(g, h) && ValidOperand(g, o)
    ensures ValidOperand(h, o) && OperandData(h, o) == OperandData(g, o)
  {
    if o.Ref? {
      assert h[o.i] == h[..|g|][o.i];
    }
  }

  lemma {:induction false} ReachOfOperand(g: Arena, v: nat, c: nat)
    requires WellFormed(g) && v < |g| && c in g[v].args
    ensures c < v && Reach(g, c) <= Reach(g, v)
  {
    var k :| 0 <= k < |g[v].args| && g[v].args[k] == c;
  }

  /** Every node reachable from `v` lies in any closed set holding `v`. */
  lemma {:induction false} ReachWithinClosed(g: Arena, v: nat, s: set<nat>)
    requires WellFormed(g) && v < |g| && v in s && Closed(g, s)
    ensures Reach(g, v) <= s
    decreases v
  {
    forall c | c in g[v].args
      ensures Reach(g, c) <= s
    {
      assert c in Prev(g, v);
      ReachWithinClosed(g, c, s);
    }
  }

  /** The reachable set is itself closed under operands. */
  lemma {:induction false} ReachClosed(g: Arena, v: nat)
    requires WellFormed(g) && v < |g|
    ensures Closed(g, Reach(g, v))
    decreases v
  {
    forall u | u in Reach(g, v)
      ensures u < |g| && Prev(g, u) <= Reach(g, v)
    {
      if u != v {
        var c :| c in g[v].args && u in Reach(g, c);
        ReachClosed(g, c);
        ReachOfOperand(g, v, c);
      } else {
        forall c | c in Prev(g, v) ensures c in Reach(g, v) {
          ReachOfOperand(g, v, c);
        }
      }
    }
  }

  /** Growing the graph changes nothing an existing node reaches. */
  lemma {:induction false} ReachExtends(g: Arena, h: Arena, v: nat)
    requires WellFormed(g) && WellFormed(h) && Extends(g, h) && v < |g|
    ensures Reach(h, v) == Reach(g, v)
    decreases v
  {
    assert h[v] == h[..|g|][v];
    forall c | c in g[v].args ensures Reach(h, c) == Reach(g, c) {
      ReachOfOperand(g, v, c);
      ReachExtends(g, h, c);
    }
  }

  /** What a node reaches, every node that reaches it reaches too, in the
      graph it was built in or any graph grown from that one. */
  lemma {:induction false} ReachGrown(g: Arena, h: Arena, v: nat, root: nat)
    requires WellFormed(g) && WellFormed(h) && Extends(g, h) && v < |g| && root < |h|
    requires v in Reach(h, root)
    ensures Reach(g, v) <= Reach(h, root)
  {
    ReachExtends(g, h, v);
    ReachClosed(h, root);
    ReachWithinClosed(h, v, Reach(h, root));
  }
}
