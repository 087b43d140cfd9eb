/**
 * The forward operators of `Value` in neuron_demo.py.  Each one allocates a
 * fresh node (and a fresh leaf for a plain-number operand) and never touches
 * a node that already exists; its backward rule is fixed by the op tag it
 * records (see module Autograd).
 */
module Value {
  import opened Core

  /** The exponent handed to `__pow__`: an integer, or a `Value`, which the
      source refuses. */
  datatype Power = IntPower(n: int) | NodePower(i: nat)

  /** The new node is the last one of a well-formed extension of `g`. */
  predicate Grown(g: Arena, r: Built)
  {
    WellFormed(r.arena) && Extends(g, r.arena) && |g| <= r.node && r.node == |r.arena| - 1
  }

  /** Every node allocated between `g` and `h` carries one of the primitive
      rules add, mul or pow (or none): a derived operator brings no rule of
      its own. */
  predicate PrimitiveOnly(g: Arena, h: Arena)
  {
    forall i :: |g| <= i < |h| ==>
      h[i].op.Leaf? || h[i].op.AddOp? || h[i].op.MulOp? || h[i].op.PowOp?
  }

  /** No node of `g` raises to a negative power, so no backward rule of `g`
      can divide by zero. */
  predicate NonNegativePowers(g: Arena)
  {
    forall i :: 0 <= i < |g| ==> g[i].op.PowOp? ==> g[i].op.n >= 0
  }

  /** `x ** n` for an integer `n`, defined unless `x` is 0 and `n` negative. */
  function IntPow(x: real, n: int): (r: real)
    requires n >= 0 || x != 0.0
    ensures x != 0.0 ==> r != 0.0
    decreases if n >= 0 then 2 * n else 1 - 2 * n
  {
    if n == 0 then 1.0
    else if n > 0 then x * IntPow(x, n - 1)
    else 1.0 / IntPow(x, -n)
  }

  /** What `math.exp` returns: never a negative number.  The model takes
      `math.exp` as a parameter of type `real -> NonNegative`. */
  type NonNegative = r: real | r >= 0.0

  /** The tanh the source computes from `math.exp(2*x)`, passed in as `e2x`. */
  function TanhOf(e2x: NonNegative): (t: real)
    ensures -1.0 <= t < 1.0
  {
    var t := (e2x - 1.0) / (e2x + 1.0);
    assert t * (e2x + 1.0) == e2x - 1.0;
    t
  }

  /** The factor tanh's rule applies, 1 - t * t, lies in [0, 1]. */
  lemma {:induction false} TanhSlope(e2x: NonNegative)
    ensures 0.0 <= 1.0 - TanhOf(e2x) * TanhOf(e2x) <= 1.0
  {
    UnitSquare(TanhOf(e2x));
  }

  lemma {:induction false} UnitSquare(t: real)
    requires -1.0 <= t <= 1.0
    ensures t * t <= 1.0
  {
    if t >= 0.0 {
      assert t * t <= t * 1.0;
    } else {
      assert t * t == (-t) * (-t) <= (-t) * 1.0;
    }
  }

  /** The wrapping at the top of `__add__` and `__mul__`: a `Value` is used as
      it is, a plain number becomes a fresh leaf. */
  function Wrap(g: Arena, o: Operand): (r: Built)
    requires WellFormed(g) && ValidOperand(g, o)
    ensures WellFormed(r.arena) && Extends(g, r.arena) && r.node < |r.arena|
    ensures r.arena[r.node].data == OperandData(g, o)
    ensures o.Ref? ==> r == Built(g, o.i)
    ensures o.Num? ==> r.node == |g| && |r.arena| == |g| + 1 && r.arena[|g|] == Node(o.x, 0.0, [], Leaf)
  {
    match o
    case Ref(i) => Built(g, i)
    case Num(x) => Built(Init(g, x, [], Leaf), |g|)
  }

  /** `a + other` (`__add__`). */
  function Add(g: Arena, a: nat, other: Operand): (r: Built)
    requires WellFormed(g) && a < |g| && ValidOperand(g, other)
    ensures Grown(g, r) && PrimitiveOnly(g, r.arena)
    ensures |r.arena| == |g| + (if other.Num? then 2 else 1)
    ensures r.arena[r.node].data == g[a].data + OperandData(g, other)
    ensures r.arena[r.node].grad == 0.0 && r.arena[r.node].op == AddOp
    ensures r.arena[r.node].args == [a, Wrap(g, other).node]
    ensures Prev(r.arena, r.node) == {a, Wrap(g, other).node}
    ensures NonNegativePowers(g) ==> NonNegativePowers(r.arena)
  {
    var w := Wrap(g, other);
    var h := Init(w.arena, g[a].data + w.arena[w.node].data, [a, w.node], AddOp);
    assert w.arena[a] == w.arena[..|g|][a];
    ExtendsTransitive(g, w.arena, h);
    Built(h, |w.arena|)
  }

  /** `a * other` (`__mul__`). */
  function Mul(g: Arena, a: nat, other: Operand): (r: Built)
    requires WellFormed(g) && a < |g| && ValidOperand(g, other)
    ensures Grown(g, r) && PrimitiveOnly(g, r.arena)
    ensures |r.arena| == |g| + (if other.Num? then 2 else 1)
    ensures r.arena[r.node].data == g[a].data * OperandData(g, other)
    ensures r.arena[r.node].grad == 0.0 && r.arena[r.node].op == MulOp
    ensures r.arena[r.node].args == [a, Wrap(g, other).node]
    ensures Prev(r.arena, r.node) == {a, Wrap(g, other).node}
    ensures NonNegativePowers(g) ==> NonNegativePowers(r.arena)
  {
    var w := Wrap(g, other);
    var h := Init(w.arena, g[a].data * w.arena[w.node].data, [a, w.node], MulOp);
    assert w.arena[a] == w.arena[..|g|][a];
    ExtendsTransitive(g, w.arena, h);
    Built(h, |w.arena|)
  }

  /** `a ** e` (`__pow__`): refused unless `e` is a number, and, as for any
      float power in Python, refused for 0.0 raised to a negative power. */
  function Pow(g: Arena, a: nat, e: Power): (r: Result<Built>)
    requires WellFormed(g) && a < |g|
    ensures r.Ok? <==> e.IntPower? && (e.n >= 0 || g[a].data != 0.0)
    ensures e.NodePower? ==> r == Err(UnsupportedOperand)
    ensures e.IntPower? && r.Err? ==> r.error == ZeroDivision
    ensures r.Ok? ==> Grown(g, r.value) && PrimitiveOnly(g, r.value.arena) && |r.value.arena| == |g| + 1
    ensures r.Ok? ==> var v := r.value.arena[r.value.node];
      v.data == IntPow(g[a].data, e.n) && v.grad == 0.0 && v.op == PowOp(e.n) && v.args == [a]
    ensures r.Ok? && NonNegativePowers(g) && e.n >= 0 ==> NonNegativePowers(r.value.arena)
  {
    match e
    case NodePower(_) => Err(UnsupportedOperand)
    case IntPower(n) =>
      if n < 0 && g[a].data == 0.0 then Err(ZeroDivision)
      else Ok(Built(Init(g, IntPow(g[a].data, n), [a], PowOp(n)), |g|))
  }

  /** `-a` (`__neg__`): `a * -1`. */
  function Neg(g: Arena, a: nat): (r: Built)
    requires WellFormed(g) && a < |g|
    ensures Grown(g, r) && PrimitiveOnly(g, r.arena) && |r.arena| == |g| + 2
    ensures r.arena[|g|] == Node(-1.0, 0.0, [], Leaf)
    ensures r.arena[r.node] == Node(-g[a].data, 0.0, [a, |g|], MulOp)
    ensures NonNegativePowers(g) ==> NonNegativePowers(r.arena)
  {
    Mul(g, a, Num(-1.0))
  }

  /** `a - other` (`__sub__`): `a + (-other)`; a plain number is negated as a
      number, a `Value` through `__neg__`. */
  function Sub(g: Arena, a: nat, other: Operand): (r: Built)
    requires WellFormed(g) && a < |g| && ValidOperand(g, other)
    ensures Grown(g, r) && PrimitiveOnly(g, r.arena)
    ensures r.arena[r.node].data == g[a].data - OperandData(g, other)
    ensures r.arena[r.node].grad == 0.0 && r.arena[r.node].op == AddOp
    ensures other.Num? ==>
      && |r.arena| == |g| + 2 && r.arena[|g|] == Node(-other.x, 0.0, [], Leaf)
      && r.arena[r.node].args == [a, |g|]
    ensures other.Ref? ==>
      && |r.arena| == |g| + 3 && r.arena[|g|] == Node(-1.0, 0.0, [], Leaf)
      && r.arena[|g| + 1] == Node(-g[other.i].data, 0.0, [other.i, |g|], MulOp)
      && r.arena[r.node].args == [a, |g| + 1]
    ensures NonNegativePowers(g) ==> NonNegativePowers(r.arena)
  {
    match other
    case Num(x) => Add(g, a, Num(-x))
    case Ref(b) =>
      var n := Neg(g, b);
      assert n.arena[a] == n.arena[..|g|][a];
      var r := Add(n.arena, a, Ref(n.node));
      ExtendsTransitive(g, n.arena, r.arena);
      r
  }

  /** `a / other` (`__truediv__`): `a * other**-1`.  For a `Value` the power
      is a graph node; for a plain number it is a float power, computed before
      the multiplication wraps the result. */
  function Div(g: Arena, a: nat, other: Operand): (r: Result<Built>)
    requires WellFormed(g) && a < |g| && ValidOperand(g, other)
    ensures r.Ok? <==> OperandData(g, other) != 0.0
    ensures r.Err? ==> r.error == ZeroDivision
    ensures r.Ok? ==> Grown(g, r.value) && PrimitiveOnly(g, r.value.arena)
    ensures r.Ok? ==> r.value.arena[r.value.node].data == g[a].data / OperandData(g, other)
    ensures r.Ok? ==> r.value.arena[r.value.node].grad == 0.0 && r.value.arena[r.value.node].op == MulOp
    ensures r.Ok? ==> |r.value.arena| == |g| + 2 && r.value.arena[r.value.node].args == [a, |g|]
    ensures r.Ok? && other.Num? ==> r.value.arena[|g|] == Node(1.0 / other.x, 0.0, [], Leaf)
    ensures r.Ok? && other.Ref? ==>
      r.value.arena[|g|] == Node(1.0 / g[other.i].data, 0.0, [other.i], PowOp(-1))
  {
    match other
    case Num(x) =>
      if x == 0.0 then Err(ZeroDivision) else Ok(DivByNumber(g, a, x))
    case Ref(b) =>
      if g[b].data == 0.0 then Err(ZeroDivision) else Ok(DivByValue(g, a, b))
  }

  /** `a / x` for a nonzero number: the float `x ** -1` becomes a leaf. */
  function DivByNumber(g: Arena, a: nat, x: real): (r: Built)
    requires WellFormed(g) && a < |g| && x != 0.0
    ensures Grown(g, r) && PrimitiveOnly(g, r.arena) && |r.arena| == |g| + 2
    ensures r.arena[|g|] == Node(1.0 / x, 0.0, [], Leaf)
    ensures r.arena[r.node] == Node(g[a].data / x, 0.0, [a, |g|], MulOp)
  {
    var r := Mul(g, a, Num(1.0 / x));
    assert g[a].data * (1.0 / x) == g[a].data / x;
    r
  }

  /** `a / b` for a nonzero `Value`: `b ** -1` is a pow node. */
  function DivByValue(g: Arena, a: nat, b: nat): (r: Built)
    requires WellFormed(g) && a < |g| && b < |g| && g[b].data != 0.0
    ensures Grown(g, r) && PrimitiveOnly(g, r.arena) && |r.arena| == |g| + 2
    ensures r.arena[|g|] == Node(1.0 / g[b].data, 0.0, [b], PowOp(-1))
    ensures r.arena[r.node] == Node(g[a].data / g[b].data, 0.0, [a, |g|], MulOp)
  {
    var p := Pow(g, b, IntPower(-1)).value;
    assert p.arena[a] == p.arena[..|g|][a];
    var r := Mul(p.arena, a, Ref(p.node));
    ExtendsTransitive(g, p.arena, r.arena);
    assert IntPow(g[b].data, -1) == 1.0 / g[b].data;
    assert g[a].data * (1.0 / g[b].data) == g[a].data / g[b].data;
    r
  }

  /** `other + a` where `other` is not a `Value` (`__radd__`): the operands
      are swapped onto `__add__`. */
  function RAdd(g: Arena, a: nat, other: Operand): (r: Built)
    requires WellFormed(g) && a < |g| && ValidOperand(g, other)
    ensures Grown(g, r) && PrimitiveOnly(g, r.arena)
    ensures |r.arena| == |g| + (if other.Num? then 2 else 1)
    ensures r.arena[r.node].data == OperandData(g, other) + g[a].data
    ensures r.arena[r.node].grad == 0.0 && r.arena[r.node].op == AddOp
    ensures r.arena[r.node].args == [a, Wrap(g, other).node]
    ensures NonNegativePowers(g) ==> NonNegativePowers(r.arena)
  {
    Add(g, a, other)
  }

  /** `other * a` where `other` is not a `Value` (`__rmul__`). */
  function RMul(g: Arena, a: nat, other: Operand): (r: Built)
    requires WellFormed(g) && a < |g| && ValidOperand(g, other)
    ensures Grown(g, r) && PrimitiveOnly(g, r.arena)
    ensures |r.arena| == |g| + (if other.Num? then 2 else 1)
    ensures r.arena[r.node].data == OperandData(g, other) * g[a].data
    ensures r.arena[r.node].grad == 0.0 && r.arena[r.node].op == MulOp
    ensures r.arena[r.node].args == [a, Wrap(g, other).node]
    ensures NonNegativePowers(g) ==> NonNegativePowers(r.arena)
  {
    Mul(g, a, other)
  }

  /** `a.tanh()`: one operand, and the value `t` its rule will use. */
  function Tanh(g: Arena, a: nat, exp: real -> NonNegative): (r: Built)
    requires WellFormed(g) && a < |g|
    ensures Grown(g, r) && |r.arena| == |g| + 1
    ensures var t := TanhOf(exp(2.0 * g[a].data));
      r.arena[r.node] == Node(t, 0.0, [a], TanhOp(t))
    ensures -1.0 <= r.arena[r.node].data < 1.0
    ensures NonNegativePowers(g) ==> NonNegativePowers(r.arena)
  {
    var t := TanhOf(exp(2.0 * g[a].data));
    Built(Init(g, t, [a], TanhOp(t)), |g|)
  }

  /** `a.exp()`: one operand; `exp` stands for `math.exp`. */
  function Exp(g: Arena, a: nat, exp: real -> NonNegative): (r: Built)
    requires WellFormed(g) && a < |g|
    ensures Grown(g, r) && |r.arena| == |g| + 1
    ensures r.arena[r.node] == Node(exp(g[a].data), 0.0, [a], ExpOp)
    ensures NonNegativePowers(g) ==> NonNegativePowers(r.arena)
  {
    Built(Init(g, exp(g[a].data), [a], ExpOp), |g|)
  }

  /** Adding a node to itself records it once in `_prev` but twice as an
      operand of the rule. */
  lemma {:induction false} AddSelf(g: Arena, a: nat)
    requires WellFormed(g) && a < |g|
    ensures var r := Add(g, a, Ref(a));
      Prev(r.arena, r.node) == {a} && r.arena[r.node].args == [a, a]
      && r.arena[r.node].data == 2.0 * g[a].data
  {
  }

  /** Squaring, as the loss does, multiplies the value by itself. */
  lemma {:induction false} PowTwo(g: Arena, a: nat)
    requires WellFormed(g) && a < |g|
    ensures Pow(g, a, IntPower(2)).Ok?
    ensures Pow(g, a, IntPower(2)).value.arena[|g|].data == g[a].data * g[a].data
  {
  }
}
