/**
 * The training loop of neuron_demo.py: a forward pass over the examples,
 * the squared-error loss, `p.grad = 0.0` for every parameter, `backward`,
 * and the update `p.data += -0.1 * p.grad`, twenty times over.
 */
module Training {
  import opened Core
  import opened Sums
  import Value
  import opened Autograd
  import opened Nn

  /** The factor the update applies to a parameter's gradient. */
  const Rate: real := -0.1

  /** How many times the script's loop runs. */
  const Epochs: nat := 20

  function Square(x: real): real
  {
    x * x
  }

  // ---------------------------------------------------------------------
  // Forward pass: `ypred = [n(x) for x in xs]`

  /** A list of plain numbers, as `n(x)` receives it. */
  function Nums(xv: seq<real>): (r: seq<Operand>)
    ensures |r| == |xv| && forall k :: 0 <= k < |xv| ==> r[k] == Num(xv[k])
  {
    seq(|xv|, k requires 0 <= k < |xv| => Num(xv[k]))
  }

  lemma {:induction false} NumsData(g: Arena, xv: seq<real>)
    ensures Operands(g, Nums(xv)) && Data(g, Nums(xv)) == xv
  {
  }

  ghost predicate Signals(g: Arena, ys: seq<Signal>)
  {
    forall k :: 0 <= k < |ys| ==> ValidSignal(g, ys[k])
  }

  lemma {:induction false} SignalExtends(g: Arena, h: Arena, y: Signal)
    requires Extends(g, h) && ValidSignal(g, y)
    ensures ValidSignal(h, y) && Values(h, y) == Values(g, y)
  {
    match y
    case Vec(xs) => OperandsExtend(g, h, xs);
    case Scalar(i) => ExtendsKeeps(g, h);
  }

  lemma {:induction false} SignalsExtend(g: Arena, h: Arena, ys: seq<Signal>)
    requires Extends(g, h) && Signals(g, ys)
    ensures Signals(h, ys)
  {
    forall k | 0 <= k < |ys| ensures ValidSignal(h, ys[k]) {
      SignalExtends(g, h, ys[k]);
    }
  }

  /** The network applied to each example in turn.  Every prediction means
      what `Forward` computes on the graph as it was before the pass. */
  function Predict(g: Arena, ls: seq<Layer>, xs: seq<seq<real>>, exp: real -> Value.NonNegative)
    : (r: Result<(Arena, seq<Signal>)>)
    requires WellFormed(g) && ValidLayers(g, ls)
    ensures r.Err? <==> xs != [] && Blocked(Vec([]), ls)
    ensures r.Err? ==> r.error == NotIterable
    ensures r.Ok? ==> WellFormed(r.value.0) && Extends(g, r.value.0)
    ensures r.Ok? ==> |r.value.1| == |xs| && Signals(r.value.0, r.value.1)
    ensures r.Ok? ==> forall k :: 0 <= k < |xs| ==>
      Values(r.value.0, r.value.1[k]) == Forward(g, ls, xs[k], exp)
    ensures r.Ok? && ls != [] ==> forall k :: 0 <= k < |xs| ==>
      (r.value.1[k].Scalar? <==> |ls[|ls| - 1].neurons| == 1)
    ensures r.Ok? && Value.NonNegativePowers(g) ==> Value.NonNegativePowers(r.value.0)
    decreases |xs|, 1
  {
    if xs == [] then Ok((g, []))
    else
      NumsData(g, xs[0]);
      match MlpCall(g, ls, Vec(Nums(xs[0])), exp)
      case Err(e) => Err(e)
      case Ok((h, y)) => PredictOn(g, ls, xs, exp, h, y)
  }

  /** The rest of the examples, once the first one has produced `y` on `h`;
      no bare value reaches a layer, so none of them fails. */
  function PredictOn(g: Arena, ls: seq<Layer>, xs: seq<seq<real>>, exp: real -> Value.NonNegative, h: Arena, y: Signal)
    : (r: Result<(Arena, seq<Signal>)>)
    requires WellFormed(g) && ValidLayers(g, ls) && xs != [] && !Blocked(Vec([]), ls)
    requires WellFormed(h) && Extends(g, h) && ValidSignal(h, y) && Values(h, y) == Forward(g, ls, xs[0], exp)
    requires ls != [] ==> (y.Scalar? <==> |ls[|ls| - 1].neurons| == 1)
    requires Value.NonNegativePowers(g) ==> Value.NonNegativePowers(h)
    ensures r.Ok?
    ensures WellFormed(r.value.0) && Extends(g, r.value.0)
    ensures |r.value.1| == |xs| && Signals(r.value.0, r.value.1)
    ensures forall k :: 0 <= k < |xs| ==> Values(r.value.0, r.value.1[k]) == Forward(g, ls, xs[k], exp)
    ensures ls != [] ==> forall k :: 0 <= k < |xs| ==>
      (r.value.1[k].Scalar? <==> |ls[|ls| - 1].neurons| == 1)
    ensures Value.NonNegativePowers(g) ==> Value.NonNegativePowers(r.value.0)
    decreases |xs|, 0
  {
    ForwardExtends(g, h, ls, [], exp);
    var rest := Predict(h, ls, xs[1..], exp);
    PredictJoin(g, h, rest.value.0, ls, xs, exp, y, rest.value.1);
    Ok((rest.value.0, [y] + rest.value.1))
  }

  lemma {:induction false} PredictJoin(g: Arena, h: Arena, k: Arena, ls: seq<Layer>, xs: seq<seq<real>>,
                    exp: real -> Value.NonNegative, y: Signal, ys: seq<Signal>)
    requires Extends(g, h) && Extends(h, k) && ValidLayers(g, ls) && xs != []
    requires ValidSignal(h, y) && Values(h, y) == Forward(g, ls, xs[0], exp)
    requires |ys| == |xs| - 1 && Signals(k, ys)
    requires forall j :: 0 <= j < |ys| ==> Values(k, ys[j]) == Forward(h, ls, xs[1..][j], exp)
    requires ls != [] ==> (y.Scalar? <==> |ls[|ls| - 1].neurons| == 1)
    requires ls != [] ==> forall j :: 0 <= j < |ys| ==> (ys[j].Scalar? <==> |ls[|ls| - 1].neurons| == 1)
    ensures Extends(g, k) && Signals(k, [y] + ys)
    ensures forall j :: 0 <= j < |xs| ==> Values(k, ([y] + ys)[j]) == Forward(g, ls, xs[j], exp)
    ensures ls != [] ==> forall j :: 0 <= j < |xs| ==> (([y] + ys)[j].Scalar? <==> |ls[|ls| - 1].neurons| == 1)
  {
    ExtendsTransitive(g, h, k);
    SignalExtends(h, k, y);
    var zs := [y] + ys;
    forall j | 0 <= j < |xs| ensures ValidSignal(k, zs[j]) && Values(k, zs[j]) == Forward(g, ls, xs[j], exp) {
      if j > 0 {
        assert zs[j] == ys[j - 1] && xs[j] == xs[1..][j - 1];
        ForwardExtends(g, h, ls, xs[j], exp);
      }
    }
    forall j | 0 <= j < |xs| && ls != [] ensures zs[j].Scalar? <==> |ls[|ls| - 1].neurons| == 1 {
      if j > 0 {
        assert zs[j] == ys[j - 1];
      }
    }
  }

  // ---------------------------------------------------------------------
  // Loss: `sum((yout - ygt)**2 for ygt, yout in zip(ys, ypred))`

  /** The first `n` predictions are bare values, not lists. */
  ghost predicate Bare(ypred: seq<Signal>, n: nat)
  {
    forall k :: 0 <= k < |ypred| && k < n ==> ypred[k].Scalar?
  }

  lemma {:induction false} BareCons(ypred: seq<Signal>, ys: seq<real>)
    requires ypred != [] && ys != []
    ensures Bare(ypred, |ys|) <==> ypred[0].Scalar? && Bare(ypred[1..], |ys| - 1)
  {
    if ypred[0].Scalar? && Bare(ypred[1..], |ys| - 1) {
      forall j | 0 <= j < |ypred| && j < |ys| ensures ypred[j].Scalar? {
        if j > 0 {
          assert ypred[j] == ypred[1..][j - 1];
        }
      }
    }
  }

  /** The sum of squared errors over the pairs `zip` forms. */
  function SquaredError(yv: seq<real>, ys: seq<real>): real
  {
    if yv == [] || ys == [] then 0.0 else Square(yv[0] - ys[0]) + SquaredError(yv[1..], ys[1..])
  }

  /** The same sum, read off the prediction nodes of a graph. */
  ghost function LossValue(g: Arena, ypred: seq<Signal>, ys: seq<real>): real
    requires Signals(g, ypred) && Bare(ypred, |ys|)
  {
    if ypred == [] || ys == [] then 0.0
    else Square(g[ypred[0].i].data - ys[0]) + LossValue(g, ypred[1..], ys[1..])
  }

  lemma {:induction false} LossValueExtends(g: Arena, h: Arena, ypred: seq<Signal>, ys: seq<real>)
    requires Extends(g, h) && Signals(g, ypred) && Bare(ypred, |ys|)
    ensures Signals(h, ypred) && LossValue(h, ypred, ys) == LossValue(g, ypred, ys)
    decreases |ys|
  {
    SignalsExtend(g, h, ypred);
    if ypred != [] && ys != [] {
      ExtendsKeeps(g, h);
      LossValueExtends(g, h, ypred[1..], ys[1..]);
    }
  }

  /** `(yout - ygt)**2`: a list minus a number is refused. */
  function Term(g: Arena, y: Signal, target: real): (r: Result<Built>)
    requires WellFormed(g) && ValidSignal(g, y)
    ensures r.Err? <==> y.Vec?
    ensures r.Err? ==> r.error == ListOperand
    ensures r.Ok? ==> Value.Grown(g, r.value)
    ensures r.Ok? ==> r.value.arena[r.value.node].data == Square(g[y.i].data - target)
    ensures r.Ok? && Value.NonNegativePowers(g) ==> Value.NonNegativePowers(r.value.arena)
  {
    match y
    case Vec(_) => Err(ListOperand)
    case Scalar(i) =>
      var d := Value.Sub(g, i, Num(target));
      Value.PowTwo(d.arena, d.node);
      Value.Pow(d.arena, d.node, Value.IntPower(2))
  }

  /** The term's node depends on the prediction it squares. */
  lemma {:induction false} TermReach(g: Arena, y: Signal, target: real)
    requires WellFormed(g) && ValidSignal(g, y)
    ensures var r := Term(g, y, target);
      r.Ok? ==> y.i in Reach(r.value.arena, r.value.node)
  {
    if y.Scalar? {
      var d := Value.Sub(g, y.i, Num(target));
      var t := Value.Pow(d.arena, d.node, Value.IntPower(2));
      assert d.arena[d.node].args[0] == y.i;
      Above(d.arena, y.i, d.node, t.value);
    }
  }

  /** A node built on `v`, whose operands include `c`, depends on `c` and on
      all `c` depends on. */
  lemma {:induction false} Above(g: Arena, c: nat, v: nat, t: Built)
    requires WellFormed(g) && v < |g| && c in g[v].args
    requires Value.Grown(g, t) && v in t.arena[t.node].args
    ensures c in Reach(t.arena, t.node) && Reach(g, v) <= Reach(t.arena, t.node)
  {
    ReachOfOperand(g, v, c);
    ReachOfOperand(t.arena, t.node, v);
    ReachGrown(g, t.arena, v, t.node);
  }

  /** One step of `sum`: the next term, then the running sum plus it.  The
      running sum is the int 0 (added through `__radd__`) or a node. */
  function AddTerm(g: Arena, acc: Operand, y: Signal, target: real): (r: Result<Built>)
    requires WellFormed(g) && ValidOperand(g, acc) && ValidSignal(g, y)
    ensures r.Err? <==> y.Vec?
    ensures r.Err? ==> r.error == ListOperand
    ensures r.Ok? ==> WellFormed(r.value.arena) && Extends(g, r.value.arena)
    ensures r.Ok? ==> |g| <= r.value.node == |r.value.arena| - 1
    ensures r.Ok? ==> r.value.arena[r.value.node].data == OperandData(g, acc) + Square(g[y.i].data - target)
    ensures r.Ok? && Value.NonNegativePowers(g) ==> Value.NonNegativePowers(r.value.arena)
  {
    match Term(g, y, target)
    case Err(e) => Err(e)
    case Ok(t) =>
      ExtendsKeepsOperand(g, t.arena, acc);
      var s := match acc
        case Num(x) => Value.RAdd(t.arena, t.node, acc)
        case Ref(a) => Value.Add(t.arena, a, Ref(t.node));
      ExtendsTransitive(g, t.arena, s.arena);
      Ok(s)
  }

  /** The running sum node depends on the prediction just added and on the
      previous sum. */
  lemma {:induction false} AddTermUses(g: Arena, acc: Operand, y: Signal, target: real)
    requires WellFormed(g) && ValidOperand(g, acc) && ValidSignal(g, y)
    ensures var r := AddTerm(g, acc, y, target);
      r.Ok? ==> y.i in Reach(r.value.arena, r.value.node) && (acc.Ref? ==> acc.i in Reach(r.value.arena, r.value.node))
  {
    var m := Term(g, y, target);
    TermReach(g, y, target);
    if m.Ok? {
      var t := m.value;
      var s := match acc
        case Num(x) => Value.RAdd(t.arena, t.node, acc)
        case Ref(a) => Value.Add(t.arena, a, Ref(t.node));
      AddTermReach(g, acc, y.i, t, s);
    }
  }

  /** A sum node over `acc` and the term `t` depends on both. */
  lemma {:induction false} AddTermReach(g: Arena, acc: Operand, i: nat, t: Built, s: Built)
    requires WellFormed(g) && ValidOperand(g, acc) && i < |g| && Value.Grown(g, t)
    requires i in Reach(t.arena, t.node) && Value.Grown(t.arena, s)
    requires s.arena[s.node].args == (if acc.Ref? then [acc.i, t.node] else [t.node, |t.arena|])
    ensures i in Reach(s.arena, s.node)
    ensures acc.Ref? ==> acc.i in Reach(s.arena, s.node)
  {
    var k := if acc.Ref? then 1 else 0;
    assert s.arena[s.node].args[k] == t.node;
    ReachOfOperand(s.arena, s.node, t.node);
    ReachGrown(t.arena, s.arena, t.node, s.node);
    if acc.Ref? {
      assert s.arena[s.node].args[0] == acc.i;
      ReachOfOperand(s.arena, s.node, acc.i);
    }
  }

  /** `sum(generator, acc)`: each step builds the next term, then the
      running sum plus the term.  Python's `sum` starts from the int 0, here
      `Num(0.0)`; when there are no pairs that 0 is what comes back, and
      otherwise the sum is a fresh node. */
  function Sum(g: Arena, ys: seq<real>, ypred: seq<Signal>, acc: Operand): (r: Result<(Arena, Operand)>)
    requires WellFormed(g) && Signals(g, ypred) && ValidOperand(g, acc)
    ensures r.Err? <==> !Bare(ypred, |ys|)
    ensures r.Err? ==> r.error == ListOperand
    ensures r.Ok? ==> WellFormed(r.value.0) && Extends(g, r.value.0) && ValidOperand(r.value.0, r.value.1)
    ensures r.Ok? && (ys == [] || ypred == []) ==> r.value.1 == acc
    ensures r.Ok? && ys != [] && ypred != [] ==> r.value.1.Ref? && |g| <= r.value.1.i
    ensures r.Ok? ==> OperandData(r.value.0, r.value.1) == OperandData(g, acc) + LossValue(g, ypred, ys)
    ensures r.Ok? && Value.NonNegativePowers(g) ==> Value.NonNegativePowers(r.value.0)
    decreases |ys|, 1
  {
    if ys == [] || ypred == [] then Ok((g, acc))
    else
      match AddTerm(g, acc, ypred[0], ys[0])
      case Err(e) => Err(e)
      case Ok(s) => SumOn(g, ys, ypred, acc, s)
  }

  /** The rest of the sum, once the first step has built node `s.node`. */
  function SumOn(g: Arena, ys: seq<real>, ypred: seq<Signal>, acc: Operand, s: Built): (r: Result<(Arena, Operand)>)
    requires WellFormed(g) && Signals(g, ypred) && ValidOperand(g, acc) && ys != [] && ypred != []
    requires ypred[0].Scalar? && WellFormed(s.arena) && Extends(g, s.arena) && |g| <= s.node < |s.arena|
    requires s.arena[s.node].data == OperandData(g, acc) + Square(g[ypred[0].i].data - ys[0])
    requires Value.NonNegativePowers(g) ==> Value.NonNegativePowers(s.arena)
    ensures r.Err? <==> !Bare(ypred, |ys|)
    ensures r.Err? ==> r.error == ListOperand
    ensures r.Ok? ==> WellFormed(r.value.0) && Extends(g, r.value.0) && ValidOperand(r.value.0, r.value.1)
    ensures r.Ok? ==> r.value.1.Ref? && |g| <= r.value.1.i
    ensures r.Ok? ==> OperandData(r.value.0, r.value.1) == OperandData(g, acc) + LossValue(g, ypred, ys)
    ensures r.Ok? && Value.NonNegativePowers(g) ==> Value.NonNegativePowers(r.value.0)
    decreases |ys|, 0
  {
    SignalsExtend(g, s.arena, ypred[1..]);
    var r := Sum(s.arena, ys[1..], ypred[1..], Ref(s.node));
    SumStepErr(ys, ypred, s.arena[s.node].data, r);
    if r.Ok? then
      SumStepOk(g, ys, ypred, acc, s, r);
      r
    else r
  }

  /** The sum's node depends on its starting value, when that is a node,
      and on every prediction it adds. */
  lemma {:induction false} SumCollects(g: Arena, ys: seq<real>, ypred: seq<Signal>, acc: Operand)
    requires WellFormed(g) && Signals(g, ypred) && ValidOperand(g, acc)
    ensures var r := Sum(g, ys, ypred, acc);
      r.Ok? && r.value.1.Ref? ==> Collects(r.value.0, r.value.1.i, acc, ypred, |ys|)
    decreases |ys|
  {
    hide AddTerm, LossValue;
    if ys != [] && ypred != [] {
      var a := AddTerm(g, acc, ypred[0], ys[0]);
      AddTermUses(g, acc, ypred[0], ys[0]);
      if a.Ok? {
        var s := a.value;
        SignalsExtend(g, s.arena, ypred[1..]);
        var r := Sum(s.arena, ys[1..], ypred[1..], Ref(s.node));
        SumCollects(s.arena, ys[1..], ypred[1..], Ref(s.node));
        if r.Ok? {
          SumStepReach(g, ys, ypred, acc, s, r.value.0, r.value.1.i);
        }
      }
    }
  }

  /** Node `v` depends on the starting value `acc`, when that is a node, and
      on each of the first `n` predictions. */
  ghost predicate Collects(g: Arena, v: nat, acc: Operand, ypred: seq<Signal>, n: nat)
    requires WellFormed(g) && v < |g|
  {
    (acc.Ref? ==> acc.i in Reach(g, v)) &&
    forall k :: 0 <= k < |ypred| && k < n ==> ypred[k].Scalar? && ypred[k].i in Reach(g, v)
  }

  /** The sum node depends on what the first step's node depends on, and on
      the predictions the rest of the sum collects. */
  lemma {:induction false} SumStepReach(g: Arena, ys: seq<real>, ypred: seq<Signal>, acc: Operand, s: Built, h: Arena, v: nat)
    requires WellFormed(g) && Signals(g, ypred) && ValidOperand(g, acc) && ys != [] && ypred != []
    requires ypred[0].Scalar? && WellFormed(s.arena) && |g| <= s.node < |s.arena| && ypred[0].i < |g|
    requires ypred[0].i in Reach(s.arena, s.node) && (acc.Ref? ==> acc.i in Reach(s.arena, s.node))
    requires WellFormed(h) && Extends(s.arena, h) && v < |h|
    requires Collects(h, v, Ref(s.node), ypred[1..], |ys| - 1)
    ensures Collects(h, v, acc, ypred, |ys|)
  {
    ReachGrown(s.arena, h, s.node, v);
    forall k | 0 <= k < |ypred| && k < |ys| ensures ypred[k].Scalar? && ypred[k].i in Reach(h, v) {
      if k > 0 {
        assert ypred[k] == ypred[1..][k - 1];
      }
    }
  }

  /** The whole sum fails exactly when the first term or the rest does. */
  lemma {:induction false} SumStepErr(ys: seq<real>, ypred: seq<Signal>, first: real, r: Result<(Arena, Operand)>)
    requires ys != [] && ypred != [] && ypred[0].Scalar?
    requires r.Err? <==> !Bare(ypred[1..], |ys| - 1)
    ensures r.Err? <==> !Bare(ypred, |ys|)
  {
    BareCons(ypred, ys);
  }

  /** What the rest of the sum promises about the grown graph is what the
      whole sum promises about `g`. */
  lemma {:induction false} SumStepOk(g: Arena, ys: seq<real>, ypred: seq<Signal>, acc: Operand, s: Built, r: Result<(Arena, Operand)>)
    requires WellFormed(g) && Signals(g, ypred) && ValidOperand(g, acc) && ys != [] && ypred != []
    requires ypred[0].Scalar? && Extends(g, s.arena) && |g| <= s.node < |s.arena|
    requires s.arena[s.node].data == OperandData(g, acc) + Square(g[ypred[0].i].data - ys[0])
    requires Signals(s.arena, ypred[1..])
    requires r.Ok? && Bare(ypred[1..], |ys| - 1)
    requires Extends(s.arena, r.value.0) && ValidOperand(r.value.0, r.value.1)
    requires r.value.1 == Ref(s.node) || (r.value.1.Ref? && |s.arena| <= r.value.1.i)
    requires OperandData(r.value.0, r.value.1) == s.arena[s.node].data + LossValue(s.arena, ypred[1..], ys[1..])
    ensures Bare(ypred, |ys|)
    ensures Extends(g, r.value.0) && r.value.1.Ref? && |g| <= r.value.1.i
    ensures OperandData(r.value.0, r.value.1) == OperandData(g, acc) + LossValue(g, ypred, ys)
  {
    BareCons(ypred, ys);
    ExtendsTransitive(g, s.arena, r.value.0);
    LossValueExtends(g, s.arena, ypred[1..], ys[1..]);
  }

  /** The forward pass and the loss of one iteration. */
  function Pass(g: Arena, ls: seq<Layer>, xs: seq<seq<real>>, ys: seq<real>, exp: real -> Value.NonNegative)
    : (r: Result<(Arena, Operand)>)
    requires WellFormed(g) && ValidLayers(g, ls)
    ensures r.Ok? ==> WellFormed(r.value.0) && Extends(g, r.value.0) && ValidOperand(r.value.0, r.value.1)
    ensures r.Ok? && r.value.1.Ref? ==> |g| <= r.value.1.i
    ensures r.Ok? && Value.NonNegativePowers(g) ==> Value.NonNegativePowers(r.value.0)
  {
    match Predict(g, ls, xs, exp)
    case Err(e) => Err(e)
    case Ok((h, ypred)) =>
      var r := Sum(h, ys, ypred, Num(0.0));
      if r.Ok? then ExtendsTransitive(g, h, r.value.0); r else r
  }

  /** What the network predicts for each example, as numbers, when its last
      layer has a single neuron. */
  ghost function Predictions(g: Arena, ls: seq<Layer>, xs: seq<seq<real>>, exp: real -> Value.NonNegative)
    : (r: seq<real>)
    requires ValidLayers(g, ls) && ls != [] && |ls[|ls| - 1].neurons| == 1
    ensures |r| == |xs|
  {
    seq(|xs|, k requires 0 <= k < |xs| => Forward(g, ls, xs[k], exp)[0])
  }

  lemma {:induction false} LossValueIs(g: Arena, ypred: seq<Signal>, ys: seq<real>, yv: seq<real>)
    requires Signals(g, ypred) && |yv| == |ypred|
    requires forall k :: 0 <= k < |ypred| ==> ypred[k].Scalar? && g[ypred[k].i].data == yv[k]
    ensures Bare(ypred, |ys|) && LossValue(g, ypred, ys) == SquaredError(yv, ys)
    decreases |ys|
  {
    if ypred != [] && ys != [] {
      LossValueIs(g, ypred[1..], ys[1..], yv[1..]);
    }
  }

  /** For a network whose last layer has one neuron: an iteration's forward
      pass fails exactly when a bare value reaches a later layer, the loss is
      a node exactly when there are examples and targets, and that node holds
      the sum of squared errors of what the network computes. */
  lemma {:induction false} PassLoss(g: Arena, ls: seq<Layer>, xs: seq<seq<real>>, ys: seq<real>, exp: real -> Value.NonNegative)
    requires WellFormed(g) && ValidLayers(g, ls) && ls != [] && |ls[|ls| - 1].neurons| == 1
    ensures Pass(g, ls, xs, ys, exp).Err? <==> xs != [] && Blocked(Vec([]), ls)
    ensures var p := Pass(g, ls, xs, ys, exp);
      p.Ok? ==> (p.value.1.Ref? <==> xs != [] && ys != [])
    ensures var p := Pass(g, ls, xs, ys, exp);
      p.Ok? ==> (ValidOperand(p.value.0, p.value.1)
        && OperandData(p.value.0, p.value.1) == SquaredError(Predictions(g, ls, xs, exp), ys))
  {
    var pr := Predict(g, ls, xs, exp);
    if pr.Ok? {
      var (h, ypred) := pr.value;
      var yv := Predictions(g, ls, xs, exp);
      forall k | 0 <= k < |ypred| ensures ypred[k].Scalar? && h[ypred[k].i].data == yv[k] {
        assert Values(h, ypred[k]) == Forward(g, ls, xs[k], exp);
      }
      LossValueIs(h, ypred, ys, yv);
    }
  }

  /** Prediction `k` depends on every parameter of every layer but the
      last and on those of its own neuron in the last layer, when the
      network pairs all its weights with example `k`. */
  lemma {:induction false} PredictReach(g: Arena, ls: seq<Layer>, xs: seq<seq<real>>, exp: real -> Value.NonNegative, k: nat)
    requires WellFormed(g) && ValidLayers(g, ls) && ls != [] && k < |xs| && Fits(ls, |xs[k]|)
    ensures var r := Predict(g, ls, xs, exp);
      r.Ok? ==> Trains(r.value.0, r.value.1[k], ls, Nums(xs[k]))
    decreases |xs|, 1
  {
    NumsData(g, xs[0]);
    var m := MlpCall(g, ls, Vec(Nums(xs[0])), exp);
    MlpTrains(g, ls, Vec(Nums(xs[0])), exp);
    if m.Ok? {
      var (h, y) := m.value;
      if k == 0 {
        PredictOnFirst(g, ls, xs, exp, h, y);
      } else {
        PredictOnRest(g, ls, xs, exp, h, y);
        PredictOnLater(h, ls, xs, exp, y, k);
      }
    }
  }

  /** A later prediction is one the rest of the examples produce on the
      grown graph `h`. */
  lemma {:induction false} PredictOnLater(h: Arena, ls: seq<Layer>, xs: seq<seq<real>>, exp: real -> Value.NonNegative,
                                          y: Signal, k: nat)
    requires WellFormed(h) && ValidLayers(h, ls) && ls != [] && 0 < k < |xs| && Fits(ls, |xs[k]|)
    requires Predict(h, ls, xs[1..], exp).Ok?
    ensures var rest := Predict(h, ls, xs[1..], exp);
      Trains(rest.value.0, ([y] + rest.value.1)[k], ls, Nums(xs[k]))
    decreases |xs|, 0
  {
    hide *;
    assert xs[1..][k - 1] == xs[k];
    PredictReach(h, ls, xs[1..], exp, k - 1);
    var rest := Predict(h, ls, xs[1..], exp);
    TrainsShift(rest.value.0, y, rest.value.1, ls, xs, k);
  }

  /** The first example has produced `y` on `h` and the rest of the pass
      can go on: what `PredictOn` needs. */
  ghost predicate Midway(g: Arena, ls: seq<Layer>, xs: seq<seq<real>>, exp: real -> Value.NonNegative, h: Arena, y: Signal)
  {
    && WellFormed(g) && ValidLayers(g, ls) && xs != [] && !Blocked(Vec([]), ls)
    && WellFormed(h) && Extends(g, h) && ValidSignal(h, y) && Values(h, y) == Forward(g, ls, xs[0], exp)
    && (ls != [] ==> (y.Scalar? <==> |ls[|ls| - 1].neurons| == 1))
    && (Value.NonNegativePowers(g) ==> Value.NonNegativePowers(h))
  }

  /** The first prediction keeps what it depends on while the others are
      built. */
  lemma {:induction false} PredictOnFirst(g: Arena, ls: seq<Layer>, xs: seq<seq<real>>, exp: real -> Value.NonNegative,
                                          h: Arena, y: Signal)
    requires Midway(g, ls, xs, exp, h, y)
    requires ls != [] && Trains(h, y, ls, Nums(xs[0]))
    ensures var r := PredictOn(g, ls, xs, exp, h, y);
      Trains(r.value.0, r.value.1[0], ls, Nums(xs[0]))
  {
    ForwardExtends(g, h, ls, [], exp);
    var rest := Predict(h, ls, xs[1..], exp);
    TrainsExtends(h, rest.value.0, y, ls, Nums(xs[0]));
  }

  /** Prediction `k - 1` of the rest of the examples is prediction `k` of
      the whole list. */
  lemma {:induction false} TrainsShift(a: Arena, y: Signal, ys: seq<Signal>, ls: seq<Layer>, xs: seq<seq<real>>, k: nat)
    requires WellFormed(a) && ls != [] && 0 < k < |xs| && k - 1 < |ys|
    requires Trains(a, ys[k - 1], ls, Nums(xs[1..][k - 1]))
    ensures Trains(a, ([y] + ys)[k], ls, Nums(xs[k]))
  {
    assert xs[1..][k - 1] == xs[k];
    assert ([y] + ys)[k] == ys[k - 1];
  }

  /** After the first example, the pass is the rest of the examples run on
      the grown graph, with `y` put in front. */
  lemma {:induction false} PredictOnRest(g: Arena, ls: seq<Layer>, xs: seq<seq<real>>, exp: real -> Value.NonNegative,
                                         h: Arena, y: Signal)
    requires Midway(g, ls, xs, exp, h, y)
    ensures ValidLayers(h, ls) && Predict(h, ls, xs[1..], exp).Ok?
    ensures var rest := Predict(h, ls, xs[1..], exp);
      PredictOn(g, ls, xs, exp, h, y) == Ok((rest.value.0, [y] + rest.value.1))
  {
    ForwardExtends(g, h, ls, [], exp);
  }

  /** For a network whose last layer is a single neuron and that pairs all
      its weights with every example, the loss node depends on every
      parameter: `backward` from it reaches each of them. */
  lemma {:induction false} PassReach(g: Arena, ls: seq<Layer>, xs: seq<seq<real>>, ys: seq<real>, exp: real -> Value.NonNegative)
    requires WellFormed(g) && ValidLayers(g, ls) && ls != [] && |ls[|ls| - 1].neurons| == 1
    requires xs != [] && ys != [] && !Blocked(Vec([]), ls) && Fits(ls, |xs[0]|)
    ensures var p := Pass(g, ls, xs, ys, exp);
      p.Ok? && p.value.1.Ref? && Within(MlpParams(ls), Reach(p.value.0, p.value.1.i))
  {
    PassLoss(g, ls, xs, ys, exp);
    PredictReach(g, ls, xs, exp, 0);
    var (h, ypred) := Predict(g, ls, xs, exp).value;
    var (k, loss) := Sum(h, ys, ypred, Num(0.0)).value;
    SumCollects(h, ys, ypred, Num(0.0));
    TrainsAll(h, ypred[0], ls, Nums(xs[0]));
    ReachGrown(h, k, ypred[0].i, loss.i);
  }

  // ---------------------------------------------------------------------
  // Zeroing and the update

  /** Every listed node's gradient is 0.0; every other node is unchanged.
      The order of the list does not matter. */
  function Zeroed(g: Arena, ps: seq<nat>): (h: Arena)
  {
    seq(|g|, i requires 0 <= i < |g| => if i in ps then g[i].(grad := 0.0) else g[i])
  }

  /** Each listed node's data moves by `Rate` times its gradient once for
      each time it is listed; gradients, operands and ops are unchanged. */
  function Descended(g: Arena, ps: seq<nat>): (h: Arena)
  {
    seq(|g|, i requires 0 <= i < |g| =>
      if i in ps then g[i].(data := g[i].data + (multiset(ps)[i] as real) * (Rate * g[i].grad)) else g[i])
  }

  lemma {:induction false} ZeroedStep(g: Arena, ps: seq<nat>, k: nat)
    requires k < |ps| && ps[k] < |g|
    ensures var z := Zeroed(g, ps[..k]);
      Zeroed(g, ps[..k + 1]) == z[ps[k] := z[ps[k]].(grad := 0.0)]
  {
    assert ps[..k + 1] == ps[..k] + [ps[k]];
  }

  lemma {:induction false} MoveAgain(a: real, x: real, m: nat)
    ensures (a + (m as real) * x) + x == a + ((m + 1) as real) * x
    ensures a + x == a + (1 as real) * x
  {
  }

  /** The node added to the list moves once more. */
  lemma {:induction false} DescendedStepAt(g: Arena, ps: seq<nat>, k: nat)
    requires k < |ps| && ps[k] < |g|
    ensures var d, p := Descended(g, ps[..k]), ps[k];
      Descended(g, ps[..k + 1])[p] == d[p].(data := d[p].data + Rate * d[p].grad)
  {
    var p := ps[k];
    assert ps[..k + 1] == ps[..k] + [p];
    assert multiset(ps[..k + 1])[p] == multiset(ps[..k])[p] + 1;
    MoveAgain(g[p].data, Rate * g[p].grad, multiset(ps[..k])[p]);
  }

  /** Every other node stays where it was. */
  lemma {:induction false} DescendedStepElse(g: Arena, ps: seq<nat>, k: nat, i: nat)
    requires k < |ps| && i < |g| && i != ps[k]
    ensures Descended(g, ps[..k + 1])[i] == Descended(g, ps[..k])[i]
  {
    assert ps[..k + 1] == ps[..k] + [ps[k]];
    assert multiset(ps[..k + 1])[i] == multiset(ps[..k])[i];
  }

  lemma {:induction false} DescendedStep(g: Arena, ps: seq<nat>, k: nat)
    requires k < |ps| && ps[k] < |g|
    ensures var d, p := Descended(g, ps[..k]), ps[k];
      Descended(g, ps[..k + 1]) == d[p := d[p].(data := d[p].data + Rate * d[p].grad)]
  {
    var p := ps[k];
    var d, e := Descended(g, ps[..k]), Descended(g, ps[..k + 1]);
    forall i | 0 <= i < |g| ensures e[i] == d[p := d[p].(data := d[p].data + Rate * d[p].grad)][i] {
      if i == p {
        DescendedStepAt(g, ps, k);
      } else {
        DescendedStepElse(g, ps, k, i);
      }
    }
  }

  /** `for p in n.parameters(): p.grad = 0.0`. */
  method ZeroGrads(tape: Tape, ps: seq<nat>)
    requires Indices(tape.nodes, ps)
    modifies tape
    ensures tape.nodes == Zeroed(old(tape.nodes), ps)
  {
    ghost var g := tape.nodes;
    var k := 0;
    while k < |ps|
      invariant 0 <= k <= |ps|
      invariant tape.nodes == Zeroed(g, ps[..k])
    {
      var p := ps[k];
      ZeroedStep(g, ps, k);
      tape.nodes := tape.nodes[p := tape.nodes[p].(grad := 0.0)];
      k := k + 1;
    }
    assert ps[..k] == ps;
  }

  /** `for p in n.parameters(): p.data += -0.1 * p.grad`. */
  method Descend(tape: Tape, ps: seq<nat>)
    requires Indices(tape.nodes, ps)
    modifies tape
    ensures tape.nodes == Descended(old(tape.nodes), ps)
  {
    ghost var g := tape.nodes;
    var k := 0;
    while k < |ps|
      invariant 0 <= k <= |ps|
      invariant tape.nodes == Descended(g, ps[..k])
    {
      var p := ps[k];
      DescendedStep(g, ps, k);
      tape.nodes := tape.nodes[p := tape.nodes[p].(data := tape.nodes[p].data + Rate * tape.nodes[p].grad)];
      k := k + 1;
    }
    assert ps[..k] == ps;
  }

  lemma {:induction false} CountOne(ps: seq<nat>, i: nat)
    requires NoDup(ps) && i in ps
    ensures multiset(ps)[i] == 1
  {
    if ps[0] == i {
      assert i !in ps[1..];
    } else {
      assert NoDup(ps[1..]);
      CountOne(ps[1..], i);
    }
    assert ps == [ps[0]] + ps[1..];
  }

  /** With no parameter listed twice, as `MLP.parameters()` guarantees, the
      update moves each parameter once by `Rate` times its gradient and
      changes nothing else. */
  lemma {:induction false} DescendOnce(g: Arena, ps: seq<nat>)
    requires NoDup(ps)
    ensures |Descended(g, ps)| == |g|
    ensures forall i :: 0 <= i < |g| ==>
      Descended(g, ps)[i] == if i in ps then g[i].(data := g[i].data + Rate * g[i].grad) else g[i]
  {
    forall i | 0 <= i < |g| && i in ps ensures multiset(ps)[i] == 1 {
      CountOne(ps, i);
    }
  }

  /** The parameters of a network are distinct: `NewMlp` hands out a range
      of fresh leaves. */
  lemma {:induction false} ParamsDistinct(g: Arena, nin: nat, nouts: seq<nat>, draw: nat -> real)
    requires WellFormed(g)
    ensures NoDup(MlpParams(NewMlp(g, nin, nouts, draw).1.layers))
  {
    var r := NewMlp(g, nin, nouts, draw);
    RangeDistinct(|g|, |r.0|);
  }

  lemma {:induction false} LayerParamsIn(g: Arena, ns: seq<Neuron>)
    requires ValidNeurons(g, ns)
    ensures Indices(g, LayerParams(ns))
  {
    if ns != [] {
      LayerParamsIn(g, ns[1..]);
      var a, b := NeuronParams(ns[0]), LayerParams(ns[1..]);
      assert LayerParams(ns) == a + b;
      assert Indices(g, a) by {
        assert ValidNeuron(g, ns[0]);
      }
    }
  }

  lemma {:induction false} ParamsIn(g: Arena, ls: seq<Layer>)
    requires ValidLayers(g, ls)
    ensures Indices(g, MlpParams(ls))
  {
    if ls != [] {
      ParamsIn(g, ls[1..]);
      LayerParamsIn(g, ls[0].neurons);
    }
  }

  lemma {:induction false} LayerParamsValid(g: Arena, ns: seq<Neuron>)
    requires Indices(g, LayerParams(ns))
    ensures ValidNeurons(g, ns)
  {
    if ns != [] {
      var a, b := NeuronParams(ns[0]), LayerParams(ns[1..]);
      assert LayerParams(ns) == a + b;
      assert Indices(g, b) by {
        forall j | 0 <= j < |b| ensures b[j] < |g| {
          assert b[j] == (a + b)[|a| + j];
        }
      }
      LayerParamsValid(g, ns[1..]);
      forall j | 0 <= j < |ns| ensures ValidNeuron(g, ns[j]) {
        if j > 0 {
          assert ns[j] == ns[1..][j - 1];
        } else {
          var n := ns[0];
          assert n.b == (a + b)[|n.w|];
          forall m | 0 <= m < |n.w| ensures n.w[m] < |g| {
            assert n.w[m] == (a + b)[m];
          }
        }
      }
    }
  }

  /** A network whose parameters are all nodes of `g` can be called on `g`. */
  lemma {:induction false} ParamsValid(g: Arena, ls: seq<Layer>)
    requires Indices(g, MlpParams(ls))
    ensures ValidLayers(g, ls)
  {
    if ls != [] {
      var a, b := LayerParams(ls[0].neurons), MlpParams(ls[1..]);
      assert MlpParams(ls) == a + b;
      assert Indices(g, a) by {
        forall j | 0 <= j < |a| ensures a[j] < |g| {
          assert a[j] == (a + b)[j];
        }
      }
      assert Indices(g, b) by {
        forall j | 0 <= j < |b| ensures b[j] < |g| {
          assert b[j] == (a + b)[|a| + j];
        }
      }
      LayerParamsValid(g, ls[0].neurons);
      ParamsValid(g, ls[1..]);
      forall i | 0 <= i < |ls| ensures ValidNeurons(g, ls[i].neurons) {
        if i > 0 {
          assert ls[i] == ls[1..][i - 1];
        }
      }
    }
  }

  /** Two graphs with the same operands and ops; only data and gradients
      may differ. */
  ghost predicate SameGraph(g: Arena, h: Arena)
  {
    |g| == |h| && forall i :: 0 <= i < |g| ==> h[i].args == g[i].args && h[i].op == g[i].op
  }

  lemma {:induction false} SameGraphKeeps(g: Arena, h: Arena, ls: seq<Layer>)
    requires SameGraph(g, h) && WellFormed(g) && ValidLayers(g, ls) && Value.NonNegativePowers(g)
    ensures WellFormed(h) && ValidLayers(h, ls) && Value.NonNegativePowers(h)
  {
    assert forall i :: 0 <= i < |g| ==> |h[i].args| == |g[i].args|;
  }

  /** No rule of a graph without negative powers can fail. */
  lemma {:induction false} NonNegativeRules(g: Arena, root: nat)
    requires WellFormed(g) && root < |g| && Value.NonNegativePowers(g)
    ensures RulesDefined(g, root)
  {
  }

  /** The graph after the gradients of `ps` are zeroed, `backward` runs
      from the loss node `l`, and the parameters are updated. */
  ghost function Stepped(h: Arena, l: nat, ps: seq<nat>): Arena
    requires WellFormed(h) && l < |h| && Value.NonNegativePowers(h)
  {
    var z := Zeroed(h, ps);
    assert SameGraph(h, z);
    SameGraphKeeps(h, z, []);
    NonNegativeRules(z, l);
    Descended(BackwardResult(z, l), ps)
  }

  /** `Stepped` keeps the graph's shape and so what holds of it. */
  lemma {:induction false} SteppedKeeps(h: Arena, l: nat, ps: seq<nat>, ls: seq<Layer>)
    requires WellFormed(h) && ValidLayers(h, ls) && Value.NonNegativePowers(h) && l < |h|
    ensures var d := Stepped(h, l, ps);
      WellFormed(d) && ValidLayers(d, ls) && Value.NonNegativePowers(d)
  {
    var z := Zeroed(h, ps);
    assert SameGraph(h, z);
    SameGraphKeeps(h, z, ls);
    NonNegativeRules(z, l);
    var b := BackwardResult(z, l);
    assert SameGraph(z, b);
    SameGraphKeeps(z, b, ls);
    var d := Descended(b, ps);
    assert SameGraph(b, d);
    SameGraphKeeps(b, d, ls);
  }

  /** The graph and the outcome of one iteration of the loop, from the
      graph it starts on: a pass that raises changes nothing, a loss that
      is the int 0 raises after the zeroing, and otherwise the loss's data
      is reported and the graph is stepped. */
  ghost function Epoch(g: Arena, ls: seq<Layer>, xs: seq<seq<real>>, ys: seq<real>, exp: real -> Value.NonNegative)
    : (e: (Arena, Result<real>))
    requires WellFormed(g) && ValidLayers(g, ls) && Value.NonNegativePowers(g)
    ensures WellFormed(e.0) && ValidLayers(e.0, ls) && Value.NonNegativePowers(e.0)
  {
    var p := Pass(g, ls, xs, ys, exp);
    if p.Err? then (g, Err(p.error))
    else
      var (k, loss) := p.value;
      ForwardExtends(g, k, ls, [], exp);
      var z := Zeroed(k, MlpParams(ls));
      assert SameGraph(k, z);
      SameGraphKeeps(k, z, ls);
      if loss.Num? then (z, Err(NoAttribute))
      else
        SteppedKeeps(k, loss.i, MlpParams(ls), ls);
        (Stepped(k, loss.i, MlpParams(ls)), Ok(k[loss.i].data))
  }

  /** The iteration after the ones that gave `t`: none if one of those
      raised, else `Epoch` on the graph they left, its loss appended. */
  ghost function Next(t: (Arena, Result<seq<real>>), ls: seq<Layer>, xs: seq<seq<real>>, ys: seq<real>, exp: real -> Value.NonNegative)
    : (u: (Arena, Result<seq<real>>))
    requires WellFormed(t.0) && ValidLayers(t.0, ls) && Value.NonNegativePowers(t.0)
    ensures WellFormed(u.0) && ValidLayers(u.0, ls) && Value.NonNegativePowers(u.0)
    ensures t.1.Ok? && u.1.Ok? ==> |u.1.value| == |t.1.value| + 1
  {
    if t.1.Err? then t
    else
      var e := Epoch(t.0, ls, xs, ys, exp);
      (e.0, if e.1.Err? then Err(e.1.error) else Ok(t.1.value + [e.1.value]))
  }

  /** After an iteration that raised, nothing more happens. */
  lemma {:induction false} NextErr(t: (Arena, Result<seq<real>>), ls: seq<Layer>, xs: seq<seq<real>>, ys: seq<real>, exp: real -> Value.NonNegative)
    requires WellFormed(t.0) && ValidLayers(t.0, ls) && Value.NonNegativePowers(t.0) && t.1.Err?
    ensures Next(t, ls, xs, ys, exp) == t
  {
  }

  /** After iterations that did not raise, the next one is `Epoch`. */
  lemma {:induction false} NextOk(h: Arena, losses: seq<real>, ls: seq<Layer>, xs: seq<seq<real>>, ys: seq<real>, exp: real -> Value.NonNegative, e: (Arena, Result<real>))
    requires WellFormed(h) && ValidLayers(h, ls) && Value.NonNegativePowers(h)
    requires e == Epoch(h, ls, xs, ys, exp)
    ensures e.1.Err? ==> Next((h, Ok(losses)), ls, xs, ys, exp) == (e.0, Err(e.1.error))
    ensures e.1.Ok? ==> Next((h, Ok(losses)), ls, xs, ys, exp) == (e.0, Ok(losses + [e.1.value]))
  {
  }

  /** The graph and the outcome after `n` iterations: the losses of all of
      them, or the error of the first that raises, on the graph it left. */
  ghost function Trained(g: Arena, ls: seq<Layer>, xs: seq<seq<real>>, ys: seq<real>, exp: real -> Value.NonNegative, n: nat)
    : (t: (Arena, Result<seq<real>>))
    requires WellFormed(g) && ValidLayers(g, ls) && Value.NonNegativePowers(g)
    ensures WellFormed(t.0) && ValidLayers(t.0, ls) && Value.NonNegativePowers(t.0)
    ensures t.1.Ok? ==> |t.1.value| == n
  {
    if n == 0 then (g, Ok([])) else Next(Trained(g, ls, xs, ys, exp, n - 1), ls, xs, ys, exp)
  }

  /** Once an iteration raises, no later one runs. */
  lemma {:induction false} TrainedStuck(g: Arena, ls: seq<Layer>, xs: seq<seq<real>>, ys: seq<real>, exp: real -> Value.NonNegative, m: nat, n: nat)
    requires WellFormed(g) && ValidLayers(g, ls) && Value.NonNegativePowers(g)
    requires m <= n && Trained(g, ls, xs, ys, exp, m).1.Err?
    ensures Trained(g, ls, xs, ys, exp, n) == Trained(g, ls, xs, ys, exp, m)
    decreases n
  {
    if m < n {
      TrainedStuck(g, ls, xs, ys, exp, m, n - 1);
      var t := Trained(g, ls, xs, ys, exp, n - 1);
      NextErr(t, ls, xs, ys, exp);
      TrainedNext(g, ls, xs, ys, exp, n);
      assert Trained(g, ls, xs, ys, exp, n) == t;
    } else {
      assert m == n;
    }
  }

  lemma {:induction false} TrainedNext(g: Arena, ls: seq<Layer>, xs: seq<seq<real>>, ys: seq<real>, exp: real -> Value.NonNegative, n: nat)
    requires WellFormed(g) && ValidLayers(g, ls) && Value.NonNegativePowers(g) && n > 0
    ensures Trained(g, ls, xs, ys, exp, n) == Next(Trained(g, ls, xs, ys, exp, n - 1), ls, xs, ys, exp)
  {
  }

  /** One more iteration, from the graph the earlier ones left: its loss is
      appended, or its error is the outcome of all `epochs` of them. */
  lemma {:induction false} TrainedAdvance(g: Arena, ls: seq<Layer>, xs: seq<seq<real>>, ys: seq<real>, exp: real -> Value.NonNegative,
                                          k: nat, h: Arena, epochs: nat, losses: seq<real>, e: (Arena, Result<real>))
    requires WellFormed(g) && ValidLayers(g, ls) && Value.NonNegativePowers(g) && k < epochs
    requires Trained(g, ls, xs, ys, exp, k) == (h, Ok(losses)) && e == Epoch(h, ls, xs, ys, exp)
    ensures e.1.Ok? ==> Trained(g, ls, xs, ys, exp, k + 1) == (e.0, Ok(losses + [e.1.value]))
    ensures e.1.Err? ==> Trained(g, ls, xs, ys, exp, epochs) == (e.0, Err(e.1.error))
  {
    TrainedNext(g, ls, xs, ys, exp, k + 1);
    NextOk(h, losses, ls, xs, ys, exp, e);
    if e.1.Err? {
      TrainedStuck(g, ls, xs, ys, exp, k + 1, epochs);
    }
  }

  /** When the network ends in one neuron, no bare value reaches a layer
      and there are examples and targets, no iteration raises. */
  lemma {:induction false} TrainedOk(g: Arena, ls: seq<Layer>, xs: seq<seq<real>>, ys: seq<real>, exp: real -> Value.NonNegative, n: nat)
    requires WellFormed(g) && ValidLayers(g, ls) && Value.NonNegativePowers(g)
    requires ls != [] && |ls[|ls| - 1].neurons| == 1 && !Blocked(Vec([]), ls) && xs != [] && ys != []
    ensures Trained(g, ls, xs, ys, exp, n).1.Ok?
  {
    if n > 0 {
      TrainedOk(g, ls, xs, ys, exp, n - 1);
      var t := Trained(g, ls, xs, ys, exp, n - 1);
      PassLoss(t.0, ls, xs, ys, exp);
      var e := Epoch(t.0, ls, xs, ys, exp);
      assert e.1.Ok?;
      NextOk(t.0, t.1.value, ls, xs, ys, exp, e);
      TrainedNext(g, ls, xs, ys, exp, n);
    }
  }

  /** One iteration of the loop: the forward pass, the loss, zeroing,
      `loss.backward()`, the update, and the loss's data.  A pass that
      raises leaves the graph as it was; a loss that is the int 0 (no
      pairs) raises at `.backward()`, after the zeroing. */
  method TrainStep(tape: Tape, ls: seq<Layer>, xs: seq<seq<real>>, ys: seq<real>, exp: real -> Value.NonNegative)
    returns (r: Result<real>)
    requires WellFormed(tape.nodes) && ValidLayers(tape.nodes, ls) && Value.NonNegativePowers(tape.nodes)
    modifies tape
    ensures WellFormed(tape.nodes) && ValidLayers(tape.nodes, ls) && Value.NonNegativePowers(tape.nodes)
    ensures var p := Pass(old(tape.nodes), ls, xs, ys, exp);
      p.Err? ==> r == Err(p.error) && tape.nodes == old(tape.nodes)
    ensures var p := Pass(old(tape.nodes), ls, xs, ys, exp);
      p.Ok? && p.value.1.Num? ==> r == Err(NoAttribute) && tape.nodes == Zeroed(p.value.0, MlpParams(ls))
    ensures var p := Pass(old(tape.nodes), ls, xs, ys, exp);
      p.Ok? && p.value.1.Ref? ==>
        && r == Ok(p.value.0[p.value.1.i].data)
        && tape.nodes == Stepped(p.value.0, p.value.1.i, MlpParams(ls))
    ensures (tape.nodes, r) == Epoch(old(tape.nodes), ls, xs, ys, exp)
  {
    ghost var g := tape.nodes;
    var ps := MlpParams(ls);
    var pr := Predict(tape.nodes, ls, xs, exp);
    if pr.Err? {
      return Err(pr.error);
    }
    var (h, ypred) := pr.value;
    var lr := Sum(h, ys, ypred, Num(0.0));
    if lr.Err? {
      return Err(lr.error);
    }
    var (k, loss) := lr.value;
    ExtendsTransitive(g, h, k);
    ForwardExtends(g, k, ls, [], exp);
    ParamsIn(g, ls);
    ParamsIn(k, ls);
    tape.nodes := k;
    ZeroGrads(tape, ps);
    var z := tape.nodes;
    assert SameGraph(k, z);
    SameGraphKeeps(k, z, ls);
    if loss.Num? {
      return Err(NoAttribute);
    }
    var l := loss.i;
    assert l !in ps by {
      forall j | 0 <= j < |ps| ensures ps[j] != l {
        assert ps[j] < |g| <= l;
      }
    }
    BackwardThenUpdate(tape, ls, ps, l);
    r := Ok(tape.nodes[l].data);
  }

  /** `loss.backward()` and then the update, on a graph whose parameter
      gradients are already zeroed. */
  method BackwardThenUpdate(tape: Tape, ls: seq<Layer>, ps: seq<nat>, l: nat)
    requires WellFormed(tape.nodes) && ValidLayers(tape.nodes, ls) && Value.NonNegativePowers(tape.nodes)
    requires l < |tape.nodes| && Indices(tape.nodes, ps)
    modifies tape
    ensures WellFormed(tape.nodes) && ValidLayers(tape.nodes, ls) && Value.NonNegativePowers(tape.nodes)
    ensures RulesDefined(old(tape.nodes), l)
    ensures tape.nodes == Descended(BackwardResult(old(tape.nodes), l), ps)
    ensures l !in ps ==> tape.nodes[l].data == old(tape.nodes)[l].data
  {
    ghost var z := tape.nodes;
    NonNegativeRules(z, l);
    var ok := tape.Backward(l);
    assert SameGraph(z, tape.nodes);
    SameGraphKeeps(z, tape.nodes, ls);
    var b := tape.nodes;
    Descend(tape, ps);
    assert SameGraph(b, tape.nodes);
    SameGraphKeeps(b, tape.nodes, ls);
  }

  /** Iteration `k + 1` of the loop, after `k` that did not raise:
      `TrainStep`, its outcome stated of the whole run. */
  method Iterate(tape: Tape, ls: seq<Layer>, xs: seq<seq<real>>, ys: seq<real>, exp: real -> Value.NonNegative,
                 ghost g: Arena, ghost k: nat, ghost losses: seq<real>, ghost epochs: nat) returns (r: Result<real>)
    requires WellFormed(g) && ValidLayers(g, ls) && Value.NonNegativePowers(g) && k < epochs
    requires Trained(g, ls, xs, ys, exp, k) == (tape.nodes, Ok(losses))
    modifies tape
    ensures r.Ok? ==> Trained(g, ls, xs, ys, exp, k + 1) == (tape.nodes, Ok(losses + [r.value]))
    ensures r.Err? ==> Trained(g, ls, xs, ys, exp, epochs) == (tape.nodes, Err(r.error))
  {
    ghost var before := tape.nodes;
    r := TrainStep(tape, ls, xs, ys, exp);
    TrainedAdvance(g, ls, xs, ys, exp, k, before, epochs, losses, (tape.nodes, r));
  }

  /** `for k in range(20)`, with the count as `epochs`: the graph and the
      outcome are those of `Trained`, so the loop stops at the first
      iteration that raises.  When every pass yields a loss node, all of
      them run. */
  method Train(tape: Tape, ls: seq<Layer>, xs: seq<seq<real>>, ys: seq<real>, exp: real -> Value.NonNegative, epochs: nat)
    returns (r: Result<seq<real>>)
    requires WellFormed(tape.nodes) && ValidLayers(tape.nodes, ls) && Value.NonNegativePowers(tape.nodes)
    modifies tape
    ensures r.Ok? ==> |r.value| == epochs
    ensures ls != [] && |ls[|ls| - 1].neurons| == 1 && !Blocked(Vec([]), ls) && xs != [] && ys != [] ==> r.Ok?
    ensures (tape.nodes, r) == Trained(old(tape.nodes), ls, xs, ys, exp, epochs)
  {
    ghost var g := tape.nodes;
    if ls != [] && |ls[|ls| - 1].neurons| == 1 && !Blocked(Vec([]), ls) && xs != [] && ys != [] {
      TrainedOk(g, ls, xs, ys, exp, epochs);
    }
    var losses := [];
    var k := 0;
    while k < epochs
      invariant 0 <= k <= epochs
      invariant Trained(g, ls, xs, ys, exp, k) == (tape.nodes, Ok(losses))
    {
      var step := Iterate(tape, ls, xs, ys, exp, g, k, losses, epochs);
      if step.Err? {
        return Err(step.error);
      }
      losses := losses + [step.value];
      k := k + 1;
    }
    return Ok(losses);
  }

  // ---------------------------------------------------------------------
  // The script

  /** The four examples and their targets. */
  const DemoXs: seq<seq<real>> := [[2.0, 3.0, -1.0], [3.0, -1.0, 0.5], [0.5, 1.0, 1.0], [1.0, 1.0, -1.0]]
  const DemoYs: seq<real> := [1.0, -1.0, -1.0, 1.0]

  /** `MLP(3, [4, 4, 1])` ends in a single neuron, and no bare value ever
      reaches a layer. */
  lemma {:induction false} DemoShape(ls: seq<Layer>)
    requires Shaped(ls, [3] + [4, 4, 1])
    ensures ls != [] && |ls[|ls| - 1].neurons| == 1 && !Blocked(Vec([]), ls)
  {
    var sz: seq<nat> := [3] + [4, 4, 1];
    assert sz[1] == 4 && sz[2] == 4 && sz[3] == 1;
    assert |ls[0].neurons| == sz[1] && |ls[1].neurons| == sz[2] && |ls[2].neurons| == sz[3];
  }

  /** `MLP(3, [4, 4, 1])` on the four examples: the forward pass never
      raises, and the loss is a node holding the sum of the squared errors
      of the network's four predictions. */
  lemma {:induction false} DemoLoss(g: Arena, ls: seq<Layer>, exp: real -> Value.NonNegative)
    requires WellFormed(g) && ValidLayers(g, ls) && Shaped(ls, [3] + [4, 4, 1])
    ensures ls != [] && |ls[|ls| - 1].neurons| == 1
    ensures var p := Pass(g, ls, DemoXs, DemoYs, exp);
      p.Ok? && p.value.1.Ref?
      && p.value.0[p.value.1.i].data == SquaredError(Predictions(g, ls, DemoXs, exp), DemoYs)
  {
    DemoShape(ls);
    PassLoss(g, ls, DemoXs, DemoYs, exp);
  }

  /** In every iteration of the script the loss node depends on all 41
      parameters of `MLP(3, [4, 4, 1])`, so `backward` reaches each one. */
  lemma {:induction false} DemoReach(g: Arena, ls: seq<Layer>, exp: real -> Value.NonNegative)
    requires WellFormed(g) && ValidLayers(g, ls) && Shaped(ls, [3] + [4, 4, 1])
    ensures |MlpParams(ls)| == 41
    ensures var p := Pass(g, ls, DemoXs, DemoYs, exp);
      p.Ok? && p.value.1.Ref? && Within(MlpParams(ls), Reach(p.value.0, p.value.1.i))
  {
    DemoShape(ls);
    MlpParamCount(ls, [3] + [4, 4, 1]);
    DemoParamCount();
    ShapedFits(ls, [3] + [4, 4, 1]);
    assert |DemoXs[0]| == 3;
    PassReach(g, ls, DemoXs, DemoYs, exp);
  }

  /** `MLP(nin, nouts)` on a fresh tape whose only nodes are its
      parameters, ready to be trained. */
  method Build(nin: nat, nouts: seq<nat>, draw: nat -> real) returns (tape: Tape, ls: seq<Layer>)
    ensures fresh(tape)
    ensures WellFormed(tape.nodes) && ValidLayers(tape.nodes, ls) && Value.NonNegativePowers(tape.nodes)
    ensures Shaped(ls, [nin] + nouts)
    ensures MlpParams(ls) == Range(0, |tape.nodes|) && |tape.nodes| == ParamCount([nin] + nouts)
    ensures forall i :: 0 <= i < |tape.nodes| ==> tape.nodes[i] == Node(draw(i), 0.0, [], Leaf)
  {
    var empty: Arena := [];
    var (g, net) := NewMlp(empty, nin, nouts, draw);
    ParamsValid(g, net.layers);
    tape := new Tape(g);
    ls := net.layers;
  }

  /** The script: build `MLP(3, [4, 4, 1])` from fresh leaves and train it
      for twenty iterations; none of them raises.  The twenty losses it
      prints are those `Trained` gives from the graph `g` of the 41 drawn
      leaves, for the network `ls`. */
  method Run(draw: nat -> real, exp: real -> Value.NonNegative) returns (losses: seq<real>, ghost g: Arena, ghost ls: seq<Layer>)
    ensures Shaped(ls, [3] + [4, 4, 1]) && MlpParams(ls) == Range(0, |g|) && |g| == 41
    ensures forall i :: 0 <= i < |g| ==> g[i] == Node(draw(i), 0.0, [], Leaf)
    ensures WellFormed(g) && ValidLayers(g, ls) && Value.NonNegativePowers(g)
    ensures Trained(g, ls, DemoXs, DemoYs, exp, Epochs).1 == Ok(losses)
    ensures |losses| == Epochs
  {
    var tape, layers := Build(3, [4, 4, 1], draw);
    g, ls := tape.nodes, layers;
    DemoShape(layers);
    DemoParamCount();
    var r := Train(tape, layers, DemoXs, DemoYs, exp, Epochs);
    losses := r.value;
  }
}
