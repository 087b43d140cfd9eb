/**
 * `Neuron`, `Layer` and `MLP` of neuron_demo.py.  Building one allocates
 * fresh leaves for its weights and biases; calling one builds new nodes on
 * top of them and of its inputs.  Neither touches an existing node, so both
 * are functions from an arena to a larger one.
 *
 * `random.uniform(-1, 1)` is replaced by `draw`, which gives the data of the
 * leaf allocated at each arena index, and `math.exp` by `exp`.
 */
module Nn {
  import opened Core
  import Value

  /** A neuron: its weight leaves and its bias leaf. */
  datatype Neuron = Neuron(w: seq<nat>, b: nat)

  datatype Layer = Layer(neurons: seq<Neuron>)

  datatype Mlp = Mlp(layers: seq<Layer>)

  /** What a call hands on: a Python list of values or plain numbers, or,
      from a layer of one neuron, a bare value. */
  datatype Signal = Vec(xs: seq<Operand>) | Scalar(i: nat)

  /** lo, lo + 1, ..., hi - 1. */
  function Range(lo: nat, hi: nat): (r: seq<nat>)
    requires lo <= hi
    ensures |r| == hi - lo && forall i :: 0 <= i < |r| ==> r[i] == lo + i
  {
    seq(hi - lo, i requires 0 <= i < hi - lo => lo + i)
  }

  lemma {:induction false} RangeConcat(lo: nat, mid: nat, hi: nat)
    requires lo <= mid <= hi
    ensures Range(lo, mid) + Range(mid, hi) == Range(lo, hi)
  {
  }

  /** No index occurs twice in a range. */
  lemma {:induction false} RangeDistinct(lo: nat, hi: nat)
    requires lo <= hi
    ensures forall i, j :: 0 <= i < j < hi - lo ==> Range(lo, hi)[i] != Range(lo, hi)[j]
  {
  }

  lemma {:induction false} ExtendsKeeps(g: Arena, h: Arena)
    requires Extends(g, h)
    ensures forall i :: 0 <= i < |g| ==> h[i] == g[i]
  {
    forall i | 0 <= i < |g| ensures h[i] == g[i] {
      assert h[..|g|][i] == h[i];
    }
  }

  // ---------------------------------------------------------------------
  // Construction and parameters

  /** `k` calls `Value(random.uniform(-1, 1))` in a row. */
  function Leaves(g: Arena, k: nat, draw: nat -> real): (h: Arena)
    requires WellFormed(g)
    ensures WellFormed(h) && Extends(g, h) && |h| == |g| + k
    ensures forall i :: |g| <= i < |h| ==> h[i] == Node(draw(i), 0.0, [], Leaf)
    ensures Value.NonNegativePowers(g) ==> Value.NonNegativePowers(h)
    decreases k
  {
    if k == 0 then g
    else
      var h := Leaves(g, k - 1, draw);
      var h' := Init(h, draw(|h|), [], Leaf);
      ExtendsTransitive(g, h, h');
      ExtendsKeeps(h, h');
      h'
  }

  /** `Neuron.parameters()`: the weights, then the bias. */
  function NeuronParams(n: Neuron): seq<nat>
  {
    n.w + [n.b]
  }

  /** `Layer.parameters()`: each neuron's parameters in turn. */
  function LayerParams(ns: seq<Neuron>): seq<nat>
  {
    if ns == [] then [] else NeuronParams(ns[0]) + LayerParams(ns[1..])
  }

  /** `MLP.parameters()`: each layer's parameters in turn. */
  function MlpParams(ls: seq<Layer>): seq<nat>
  {
    if ls == [] then [] else LayerParams(ls[0].neurons) + MlpParams(ls[1..])
  }

  /** The number of parameters of a network with layer sizes `sz`: for each
      consecutive pair, (sz[i] + 1) * sz[i + 1]. */
  function ParamCount(sz: seq<nat>): nat
  {
    if |sz| < 2 then 0 else (sz[0] + 1) * sz[1] + ParamCount(sz[1..])
  }

  /** `Neuron(nin)`: nin weight leaves and then a bias leaf, all fresh. */
  function NewNeuron(g: Arena, nin: nat, draw: nat -> real): (r: (Arena, Neuron))
    requires WellFormed(g)
    ensures WellFormed(r.0) && Extends(g, r.0) && |r.0| == |g| + nin + 1
    ensures forall i :: |g| <= i < |r.0| ==> r.0[i] == Node(draw(i), 0.0, [], Leaf)
    ensures Value.NonNegativePowers(g) ==> Value.NonNegativePowers(r.0)
    ensures |r.1.w| == nin && |NeuronParams(r.1)| == nin + 1
    ensures NeuronParams(r.1) == Range(|g|, |r.0|)
  {
    var h := Leaves(g, nin + 1, draw);
    var n := Neuron(Range(|g|, |g| + nin), |g| + nin);
    RangeConcat(|g|, |g| + nin, |h|);
    (h, n)
  }

  /** The neurons of `Layer(nin, nout)`, built in order. */
  function NewNeurons(g: Arena, nin: nat, nout: nat, draw: nat -> real): (r: (Arena, seq<Neuron>))
    requires WellFormed(g)
    ensures WellFormed(r.0) && Extends(g, r.0)
    ensures forall i :: |g| <= i < |r.0| ==> r.0[i] == Node(draw(i), 0.0, [], Leaf)
    ensures Value.NonNegativePowers(g) ==> Value.NonNegativePowers(r.0)
    ensures |r.1| == nout && forall j :: 0 <= j < nout ==> |r.1[j].w| == nin
    ensures LayerParams(r.1) == Range(|g|, |r.0|)
    decreases nout
  {
    if nout == 0 then (g, [])
    else
      var (h, n) := NewNeuron(g, nin, draw);
      var (k, ns) := NewNeurons(h, nin, nout - 1, draw);
      ExtendsTransitive(g, h, k);
      FreshJoin(g, h, k, draw);
      assert ([n] + ns)[1..] == ns;
      RangeConcat(|g|, |h|, |k|);
      (k, [n] + ns)
  }

  /** `Layer(nin, nout)`: it has nout * (nin + 1) parameters, all fresh. */
  function NewLayer(g: Arena, nin: nat, nout: nat, draw: nat -> real): (r: (Arena, Layer))
    requires WellFormed(g)
    ensures WellFormed(r.0) && Extends(g, r.0)
    ensures forall i :: |g| <= i < |r.0| ==> r.0[i] == Node(draw(i), 0.0, [], Leaf)
    ensures Value.NonNegativePowers(g) ==> Value.NonNegativePowers(r.0)
    ensures |r.1.neurons| == nout && forall j :: 0 <= j < nout ==> |r.1.neurons[j].w| == nin
    ensures LayerParams(r.1.neurons) == Range(|g|, |r.0|)
  {
    var (h, ns) := NewNeurons(g, nin, nout, draw);
    (h, Layer(ns))
  }

  /** A layer of `nout` neurons with `nin` weights each has nout * (nin + 1)
      parameters. */
  lemma {:induction false} LayerParamCount(ns: seq<Neuron>, nin: nat)
    requires forall j :: 0 <= j < |ns| ==> |ns[j].w| == nin
    ensures |LayerParams(ns)| == |ns| * (nin + 1)
  {
    if ns != [] {
      LayerParamCount(ns[1..], nin);
      assert |LayerParams(ns)| == (nin + 1) + (|ns| - 1) * (nin + 1);
    }
  }

  /** A network shaped by `sz` has ParamCount(sz) parameters. */
  lemma {:induction false} MlpParamCount(ls: seq<Layer>, sz: seq<nat>)
    requires Shaped(ls, sz)
    ensures |MlpParams(ls)| == ParamCount(sz)
  {
    if ls != [] {
      var ns := ls[0].neurons;
      assert |ns| == sz[1] && forall j :: 0 <= j < |ns| ==> |ns[j].w| == sz[0];
      LayerParamCount(ns, sz[0]);
      ShapedTail(ls, sz);
      MlpParamCount(ls[1..], sz[1..]);
      assert |MlpParams(ls)| == |LayerParams(ns)| + |MlpParams(ls[1..])|;
      assert ParamCount(sz) == (sz[0] + 1) * sz[1] + ParamCount(sz[1..]);
      assert |LayerParams(ns)| == (sz[0] + 1) * sz[1] by {
        assert |ns| * (sz[0] + 1) == (sz[0] + 1) * sz[1];
      }
    }
  }

  lemma {:induction false} ShapedTail(ls: seq<Layer>, sz: seq<nat>)
    requires Shaped(ls, sz) && ls != []
    ensures Shaped(ls[1..], sz[1..])
  {
    forall i | 0 <= i < |ls| - 1
      ensures |ls[1..][i].neurons| == sz[1..][i + 1]
      ensures forall j :: 0 <= j < |ls[1..][i].neurons| ==> |ls[1..][i].neurons[j].w| == sz[1..][i]
    {
      assert ls[1..][i] == ls[i + 1];
    }
  }

  /** Layer `i` of a network with sizes `sz` maps sz[i] inputs to sz[i + 1]
      outputs. */
  ghost predicate Shaped(ls: seq<Layer>, sz: seq<nat>)
  {
    |sz| == |ls| + 1 &&
    forall i :: 0 <= i < |ls| ==>
      |ls[i].neurons| == sz[i + 1] &&
      forall j :: 0 <= j < |ls[i].neurons| ==> |ls[i].neurons[j].w| == sz[i]
  }

  lemma {:induction false} ShapedCons(l: Layer, ls: seq<Layer>, nin: nat, nouts: seq<nat>)
    requires nouts != [] && |l.neurons| == nouts[0]
    requires forall j :: 0 <= j < |l.neurons| ==> |l.neurons[j].w| == nin
    requires Shaped(ls, nouts)
    ensures Shaped([l] + ls, [nin] + nouts)
  {
    var ls', sz := [l] + ls, [nin] + nouts;
    forall i | 0 <= i < |ls'|
      ensures |ls'[i].neurons| == sz[i + 1]
      ensures forall j :: 0 <= j < |ls'[i].neurons| ==> |ls'[i].neurons[j].w| == sz[i]
    {
      if i > 0 {
        assert ls'[i] == ls[i - 1] && sz[i] == nouts[i - 1];
      }
    }
  }

  /** Fresh leaves allocated in two runs are fresh leaves allocated in one. */
  lemma {:induction false} FreshJoin(g: Arena, h: Arena, k: Arena, draw: nat -> real)
    requires Extends(g, h) && Extends(h, k)
    requires forall i :: |g| <= i < |h| ==> h[i] == Node(draw(i), 0.0, [], Leaf)
    requires forall i :: |h| <= i < |k| ==> k[i] == Node(draw(i), 0.0, [], Leaf)
    ensures forall i :: |g| <= i < |k| ==> k[i] == Node(draw(i), 0.0, [], Leaf)
  {
    ExtendsKeeps(h, k);
  }

  /** The layers of `MLP(nin, nouts)`, built in order. */
  function NewLayers(g: Arena, nin: nat, nouts: seq<nat>, draw: nat -> real): (r: (Arena, seq<Layer>))
    requires WellFormed(g)
    ensures WellFormed(r.0) && Extends(g, r.0)
    ensures forall i :: |g| <= i < |r.0| ==> r.0[i] == Node(draw(i), 0.0, [], Leaf)
    ensures Value.NonNegativePowers(g) ==> Value.NonNegativePowers(r.0)
    ensures Shaped(r.1, [nin] + nouts)
    ensures MlpParams(r.1) == Range(|g|, |r.0|)
    decreases |nouts|
  {
    if nouts == [] then
      (g, [])
    else
      var (h, l) := NewLayer(g, nin, nouts[0], draw);
      var (k, ls) := NewLayers(h, nouts[0], nouts[1..], draw);
      ExtendsTransitive(g, h, k);
      FreshJoin(g, h, k, draw);
      assert [nouts[0]] + nouts[1..] == nouts;
      ShapedCons(l, ls, nin, nouts);
      assert ([l] + ls)[1..] == ls;
      RangeConcat(|g|, |h|, |k|);
      (k, [l] + ls)
  }

  /** `MLP(nin, nouts)`: its parameters are the fresh leaves it allocated,
      each once and in allocation order, and there are as many as the sizes
      say. */
  function NewMlp(g: Arena, nin: nat, nouts: seq<nat>, draw: nat -> real): (r: (Arena, Mlp))
    requires WellFormed(g)
    ensures WellFormed(r.0) && Extends(g, r.0)
    ensures forall i :: |g| <= i < |r.0| ==> r.0[i] == Node(draw(i), 0.0, [], Leaf)
    ensures Value.NonNegativePowers(g) ==> Value.NonNegativePowers(r.0)
    ensures Shaped(r.1.layers, [nin] + nouts)
    ensures MlpParams(r.1.layers) == Range(|g|, |r.0|)
    ensures |MlpParams(r.1.layers)| == ParamCount([nin] + nouts)
  {
    var (h, ls) := NewLayers(g, nin, nouts, draw);
    MlpParamCount(ls, [nin] + nouts);
    (h, Mlp(ls))
  }

  /** The network of the demo, `MLP(3, [4, 4, 1])`, has 41 parameters. */
  lemma {:induction false} DemoParamCount()
    ensures ParamCount([3, 4, 4, 1]) == 41
  {
    assert [3, 4, 4, 1][1..] == [4, 4, 1];
    assert [4, 4, 1][1..] == [4, 1];
    assert [4, 1][1..] == [1];
  }

  // ---------------------------------------------------------------------
  // Calling

  ghost predicate Indices(g: Arena, w: seq<nat>)
  {
    forall i :: 0 <= i < |w| ==> w[i] < |g|
  }

  ghost predicate Operands(g: Arena, x: seq<Operand>)
  {
    forall i :: 0 <= i < |x| ==> ValidOperand(g, x[i])
  }

  ghost predicate ValidNeuron(g: Arena, n: Neuron)
  {
    n.b < |g| && Indices(g, n.w)
  }

  ghost predicate ValidNeurons(g: Arena, ns: seq<Neuron>)
  {
    forall j :: 0 <= j < |ns| ==> ValidNeuron(g, ns[j])
  }

  ghost predicate ValidLayers(g: Arena, ls: seq<Layer>)
  {
    forall i :: 0 <= i < |ls| ==> ValidNeurons(g, ls[i].neurons)
  }

  ghost predicate ValidSignal(g: Arena, x: Signal)
  {
    match x
    case Vec(xs) => Operands(g, xs)
    case Scalar(i) => i < |g|
  }

  /** The numbers a list of operands stands for. */
  function Data(g: Arena, x: seq<Operand>): (r: seq<real>)
    requires Operands(g, x)
    ensures |r| == |x| && forall i :: 0 <= i < |x| ==> r[i] == OperandData(g, x[i])
  {
    seq(|x|, i requires 0 <= i < |x| => OperandData(g, x[i]))
  }

  /** The numbers a signal stands for; a bare value is one number. */
  function Values(g: Arena, x: Signal): seq<real>
    requires ValidSignal(g, x)
  {
    match x
    case Vec(xs) => Data(g, xs)
    case Scalar(i) => [g[i].data]
  }

  /** The weighted sum of `zip(w, x)`: pairs past the shorter list are
      dropped. */
  function Weighted(g: Arena, w: seq<nat>, xv: seq<real>): real
    requires Indices(g, w)
  {
    if w == [] || xv == [] then 0.0 else g[w[0]].data * xv[0] + Weighted(g, w[1..], xv[1..])
  }

  /** What a neuron computes, as a number: tanh of the bias plus the weighted
      sum of the inputs. */
  ghost function Activation(g: Arena, n: Neuron, xv: seq<real>, exp: real -> Value.NonNegative): real
    requires ValidNeuron(g, n)
  {
    Value.TanhOf(exp(2.0 * (g[n.b].data + Weighted(g, n.w, xv))))
  }

  /** What a layer computes, as numbers: one activation per neuron. */
  ghost function LayerValues(g: Arena, ns: seq<Neuron>, xv: seq<real>, exp: real -> Value.NonNegative): (r: seq<real>)
    requires ValidNeurons(g, ns)
    ensures |r| == |ns|
  {
    seq(|ns|, j requires 0 <= j < |ns| => Activation(g, ns[j], xv, exp))
  }

  /** What a network computes, as numbers: the layers applied in turn. */
  ghost function Forward(g: Arena, ls: seq<Layer>, xv: seq<real>, exp: real -> Value.NonNegative): (r: seq<real>)
    requires ValidLayers(g, ls)
    ensures ls != [] ==> |r| == |ls[|ls| - 1].neurons|
  {
    if ls == [] then xv else Forward(g, ls[1..], LayerValues(g, ls[0].neurons, xv, exp), exp)
  }

  /** The network's first layer computed on `g`, the rest of it on a graph
      `h` grown from `g`. */
  lemma {:induction false} ForwardStep(g: Arena, h: Arena, ls: seq<Layer>, xv: seq<real>, exp: real -> Value.NonNegative)
    requires Extends(g, h) && ValidLayers(g, ls) && ls != []
    ensures Forward(g, ls, xv, exp) == Forward(h, ls[1..], LayerValues(g, ls[0].neurons, xv, exp), exp)
    ensures |ls| > 1 ==> ls[1..][|ls| - 2] == ls[|ls| - 1]
  {
    ForwardExtends(g, h, ls[1..], LayerValues(g, ls[0].neurons, xv, exp), exp);
  }

  lemma {:induction false} WeightedExtends(g: Arena, h: Arena, w: seq<nat>, xv: seq<real>)
    requires Extends(g, h) && Indices(g, w)
    ensures Indices(h, w) && Weighted(h, w, xv) == Weighted(g, w, xv)
    decreases |w|
  {
    ExtendsKeeps(g, h);
    if w != [] && xv != [] {
      WeightedExtends(g, h, w[1..], xv[1..]);
    }
  }

  lemma {:induction false} ActivationExtends(g: Arena, h: Arena, n: Neuron, xv: seq<real>, exp: real -> Value.NonNegative)
    requires Extends(g, h) && ValidNeuron(g, n)
    ensures ValidNeuron(h, n) && Activation(h, n, xv, exp) == Activation(g, n, xv, exp)
  {
    ExtendsKeeps(g, h);
    WeightedExtends(g, h, n.w, xv);
  }

  lemma {:induction false} LayerValuesExtends(g: Arena, h: Arena, ns: seq<Neuron>, xv: seq<real>, exp: real -> Value.NonNegative)
    requires Extends(g, h) && ValidNeurons(g, ns)
    ensures ValidNeurons(h, ns) && LayerValues(h, ns, xv, exp) == LayerValues(g, ns, xv, exp)
  {
    forall j | 0 <= j < |ns|
      ensures ValidNeuron(h, ns[j]) && Activation(h, ns[j], xv, exp) == Activation(g, ns[j], xv, exp)
    {
      ActivationExtends(g, h, ns[j], xv, exp);
    }
  }

  lemma {:induction false} ForwardExtends(g: Arena, h: Arena, ls: seq<Layer>, xv: seq<real>, exp: real -> Value.NonNegative)
    requires Extends(g, h) && ValidLayers(g, ls)
    ensures ValidLayers(h, ls) && Forward(h, ls, xv, exp) == Forward(g, ls, xv, exp)
    decreases |ls|
  {
    forall i | 0 <= i < |ls| ensures ValidNeurons(h, ls[i].neurons) {
      LayerValuesExtends(g, h, ls[i].neurons, xv, exp);
    }
    if ls != [] {
      LayerValuesExtends(g, h, ls[0].neurons, xv, exp);
      ForwardExtends(g, h, ls[1..], LayerValues(g, ls[0].neurons, xv, exp), exp);
    }
  }

  lemma {:induction false} OperandsExtend(g: Arena, h: Arena, x: seq<Operand>)
    requires Extends(g, h) && Operands(g, x)
    ensures Operands(h, x) && Data(h, x) == Data(g, x)
  {
    forall i | 0 <= i < |x| ensures ValidOperand(h, x[i]) && OperandData(h, x[i]) == OperandData(g, x[i]) {
      ExtendsKeepsOperand(g, h, x[i]);
    }
  }

  /** `sum((wi*xi for wi, xi in zip(w, x)), acc)`: one product and one sum
      node per pair, left to right, starting from the node `acc`. */
  function Dot(g: Arena, w: seq<nat>, x: seq<Operand>, acc: nat): (r: Built)
    requires WellFormed(g) && acc < |g| && Indices(g, w) && Operands(g, x)
    ensures WellFormed(r.arena) && Extends(g, r.arena) && r.node < |r.arena|
    ensures r.arena[r.node].data == g[acc].data + Weighted(g, w, Data(g, x))
    ensures Value.NonNegativePowers(g) ==> Value.NonNegativePowers(r.arena)
    ensures acc in Reach(r.arena, r.node)
    ensures forall k :: 0 <= k < |w| && k < |x| ==>
      w[k] in Reach(r.arena, r.node) && (x[k].Ref? ==> x[k].i in Reach(r.arena, r.node))
    decreases |w|
  {
    if w == [] || x == [] then Built(g, acc)
    else
      var p := Value.Mul(g, w[0], x[0]);
      var s := Value.Add(p.arena, acc, Ref(p.node));
      ExtendsTransitive(g, p.arena, s.arena);
      DotStep(g, s.arena, w, x);
      ExtendsKeeps(g, p.arena);
      var m := p.arena[p.node].data;
      assert s.arena[s.node].data == g[acc].data + m;
      WeightedHead(g, w, x, m);
      var r := Dot(s.arena, w[1..], x[1..], s.node);
      ExtendsTransitive(g, s.arena, r.arena);
      DotReach(g, w, x, acc, p, s, r);
      r
  }

  /** The product node of the first pair hangs under the sum node built on
      `acc`, and that sum node under everything the rest of the pairs build. */
  lemma {:induction false} DotReach(g: Arena, w: seq<nat>, x: seq<Operand>, acc: nat, p: Built, s: Built, r: Built)
    requires WellFormed(g) && acc < |g| && Indices(g, w) && Operands(g, x) && w != [] && x != []
    requires Value.Grown(g, p) && Value.Grown(p.arena, s)
    requires w[0] in p.arena[p.node].args && (x[0].Ref? ==> x[0].i in p.arena[p.node].args)
    requires s.arena[s.node].args == [acc, p.node]
    requires WellFormed(r.arena) && Extends(s.arena, r.arena) && r.node < |r.arena|
    requires s.node in Reach(r.arena, r.node)
    requires forall k :: 0 <= k < |w[1..]| && k < |x[1..]| ==>
      w[1..][k] in Reach(r.arena, r.node) && (x[1..][k].Ref? ==> x[1..][k].i in Reach(r.arena, r.node))
    ensures acc in Reach(r.arena, r.node)
    ensures forall k :: 0 <= k < |w| && k < |x| ==>
      w[k] in Reach(r.arena, r.node) && (x[k].Ref? ==> x[k].i in Reach(r.arena, r.node))
  {
    ReachGrown(s.arena, r.arena, s.node, r.node);
    ReachOfOperand(s.arena, s.node, acc);
    ReachOfOperand(s.arena, s.node, p.node);
    ReachGrown(p.arena, s.arena, p.node, s.node);
    ReachOfOperand(p.arena, p.node, w[0]);
    if x[0].Ref? {
      ReachOfOperand(p.arena, p.node, x[0].i);
    }
    forall k | 0 <= k < |w| && k < |x|
      ensures w[k] in Reach(r.arena, r.node) && (x[k].Ref? ==> x[k].i in Reach(r.arena, r.node))
    {
      if k > 0 {
        assert w[k] == w[1..][k - 1] && x[k] == x[1..][k - 1];
      }
    }
  }

  lemma {:induction false} WeightedHead(g: Arena, w: seq<nat>, x: seq<Operand>, m: real)
    requires Indices(g, w) && Operands(g, x) && w != [] && x != []
    requires m == g[w[0]].data * OperandData(g, x[0])
    ensures Weighted(g, w, Data(g, x)) == m + Weighted(g, w[1..], Data(g, x)[1..])
  {
  }

  /** The rest of the pairs mean the same in the grown arena. */
  lemma {:induction false} DotStep(g: Arena, h: Arena, w: seq<nat>, x: seq<Operand>)
    requires Extends(g, h) && Indices(g, w) && Operands(g, x) && w != [] && x != []
    ensures Indices(h, w[1..]) && Operands(h, x[1..])
    ensures Weighted(h, w[1..], Data(h, x[1..])) == Weighted(g, w[1..], Data(g, x)[1..])
  {
    OperandsExtend(g, h, x[1..]);
    WeightedExtends(g, h, w[1..], Data(g, x)[1..]);
    assert Data(g, x[1..]) == Data(g, x)[1..];
  }

  /** `Neuron.__call__`: tanh of the bias plus the weighted inputs.  A bare
      value cannot be zipped. */
  function NeuronCall(g: Arena, n: Neuron, x: Signal, exp: real -> Value.NonNegative): (r: Result<Built>)
    requires WellFormed(g) && ValidNeuron(g, n) && ValidSignal(g, x)
    ensures r.Err? <==> x.Scalar?
    ensures r.Err? ==> r.error == NotIterable
    ensures r.Ok? ==> WellFormed(r.value.arena) && Extends(g, r.value.arena) && r.value.node < |r.value.arena|
    ensures r.Ok? ==> r.value.arena[r.value.node].data == Activation(g, n, Values(g, x), exp)
    ensures r.Ok? && Value.NonNegativePowers(g) ==> Value.NonNegativePowers(r.value.arena)
    ensures r.Ok? ==> Uses(r.value.arena, r.value.node, n, x.xs)
  {
    match x
    case Scalar(_) => Err(NotIterable)
    case Vec(xs) => Ok(Fire(g, n, xs, exp))
  }

  /** The neuron on a list of inputs: the dot product, then `tanh`. */
  function Fire(g: Arena, n: Neuron, xs: seq<Operand>, exp: real -> Value.NonNegative): (r: Built)
    requires WellFormed(g) && ValidNeuron(g, n) && Operands(g, xs)
    ensures WellFormed(r.arena) && Extends(g, r.arena) && r.node < |r.arena|
    ensures r.arena[r.node].data == Activation(g, n, Data(g, xs), exp)
    ensures Value.NonNegativePowers(g) ==> Value.NonNegativePowers(r.arena)
    ensures Uses(r.arena, r.node, n, xs)
  {
    hide Value.TanhOf;
    var d := Dot(g, n.w, xs, n.b);
    var t := Value.Tanh(d.arena, d.node, exp);
    ExtendsTransitive(g, d.arena, t.arena);
    NeuronOut(g, n, xs, exp, d.arena[d.node].data, t.arena[t.node].data);
    FireReach(g, n, xs, exp, d, t);
    t
  }

  /** The neuron's output depends on all the dot product's node does. */
  lemma {:induction false} FireReach(g: Arena, n: Neuron, xs: seq<Operand>, exp: real -> Value.NonNegative, d: Built, t: Built)
    requires WellFormed(g) && ValidNeuron(g, n) && Operands(g, xs)
    requires d == Dot(g, n.w, xs, n.b) && t == Value.Tanh(d.arena, d.node, exp)
    ensures Uses(t.arena, t.node, n, xs)
  {
    TanhReach(d, t, n, xs);
  }

  /** Node `v` depends on the neuron's bias and on each weight and each
      input node that `zip(self.w, x)` pairs. */
  ghost predicate Uses(g: Arena, v: nat, n: Neuron, xs: seq<Operand>)
    requires WellFormed(g) && v < |g|
  {
    n.b in Reach(g, v) &&
    forall k :: 0 <= k < |n.w| && k < |xs| ==>
      n.w[k] in Reach(g, v) && (xs[k].Ref? ==> xs[k].i in Reach(g, v))
  }

  /** The tanh node depends on all its operand does. */
  lemma {:induction false} TanhReach(d: Built, t: Built, n: Neuron, xs: seq<Operand>)
    requires WellFormed(d.arena) && d.node < |d.arena| && Value.Grown(d.arena, t)
    requires t.arena[t.node].args == [d.node]
    requires n.b in Reach(d.arena, d.node)
    requires forall k :: 0 <= k < |n.w| && k < |xs| ==>
      n.w[k] in Reach(d.arena, d.node) && (xs[k].Ref? ==> xs[k].i in Reach(d.arena, d.node))
    ensures Uses(t.arena, t.node, n, xs)
  {
    ReachOfOperand(t.arena, t.node, d.node);
    ReachGrown(d.arena, t.arena, d.node, t.node);
  }

  /** What a node depends on it still depends on in a grown graph. */
  lemma {:induction false} UsesExtends(g: Arena, h: Arena, v: nat, n: Neuron, xs: seq<Operand>)
    requires WellFormed(g) && WellFormed(h) && Extends(g, h) && v < |g| && Uses(g, v, n, xs)
    ensures Uses(h, v, n, xs)
  {
    ReachExtends(g, h, v);
  }

  /** Tanh of the pre-activation the dot product left is the activation. */
  lemma {:induction false} NeuronOut(g: Arena, n: Neuron, xs: seq<Operand>, exp: real -> Value.NonNegative, z: real, o: real)
    requires ValidNeuron(g, n) && Operands(g, xs)
    requires z == g[n.b].data + Weighted(g, n.w, Data(g, xs))
    requires o == Value.TanhOf(exp(2.0 * z))
    ensures o == Activation(g, n, Data(g, xs), exp)
  {
  }

  /** `[n(x) for n in neurons]`: the outputs in order, each node built on
      the arena the previous one left. */
  function NeuronsCall(g: Arena, ns: seq<Neuron>, x: Signal, exp: real -> Value.NonNegative): (r: Result<(Arena, seq<nat>)>)
    requires WellFormed(g) && ValidNeurons(g, ns) && ValidSignal(g, x)
    ensures r.Err? <==> x.Scalar? && |ns| > 0
    ensures r.Err? ==> r.error == NotIterable
    ensures r.Ok? ==> WellFormed(r.value.0) && Extends(g, r.value.0) && |r.value.1| == |ns|
    ensures r.Ok? ==> forall j :: 0 <= j < |ns| ==>
      r.value.1[j] < |r.value.0| && r.value.0[r.value.1[j]].data == Activation(g, ns[j], Values(g, x), exp)
    ensures r.Ok? && Value.NonNegativePowers(g) ==> Value.NonNegativePowers(r.value.0)
    ensures r.Ok? && x.Vec? ==> forall j :: 0 <= j < |ns| ==> Uses(r.value.0, r.value.1[j], ns[j], x.xs)
    decreases |ns|
  {
    if ns == [] then Ok((g, []))
    else
      match NeuronCall(g, ns[0], x, exp)
      case Err(e) => Err(e)
      case Ok(o) =>
        var h := o.arena;
        CallGrown(g, h, ns, x, exp);
        var rest := NeuronsCall(h, ns[1..], x, exp);
        match rest
        case Err(e) => Err(e)
        case Ok((k, outs)) =>
          ExtendsTransitive(g, h, k);
          NeuronsJoin(g, h, k, ns, x, exp, o.node, outs);
          NeuronsReach(h, k, ns, x.xs, o.node, outs);
          Ok((k, [o.node] + outs))
  }

  /** The first output keeps what it depends on in the graph the other
      neurons grow. */
  lemma {:induction false} NeuronsReach(h: Arena, k: Arena, ns: seq<Neuron>, xs: seq<Operand>, o: nat, outs: seq<nat>)
    requires WellFormed(h) && WellFormed(k) && Extends(h, k) && ns != []
    requires o < |h| && Uses(h, o, ns[0], xs)
    requires |outs| == |ns| - 1 && forall j :: 0 <= j < |outs| ==> outs[j] < |k|
    requires forall j :: 0 <= j < |outs| ==> Uses(k, outs[j], ns[1..][j], xs)
    ensures forall j :: 0 <= j < |ns| ==> ([o] + outs)[j] < |k| && Uses(k, ([o] + outs)[j], ns[j], xs)
  {
    UsesExtends(h, k, o, ns[0], xs);
    forall j | 0 <= j < |ns| ensures ([o] + outs)[j] < |k| && Uses(k, ([o] + outs)[j], ns[j], xs) {
      if j > 0 {
        assert ns[1..][j - 1] == ns[j] && ([o] + outs)[j] == outs[j - 1];
      }
    }
  }

  lemma {:induction false} CallGrown(g: Arena, h: Arena, ns: seq<Neuron>, x: Signal, exp: real -> Value.NonNegative)
    requires Extends(g, h) && ValidNeurons(g, ns) && ValidSignal(g, x) && ns != []
    ensures ValidNeurons(h, ns[1..]) && ValidSignal(h, x) && Values(h, x) == Values(g, x)
  {
    ExtendsKeeps(g, h);
    forall j | 0 <= j < |ns| - 1 ensures ValidNeuron(h, ns[1..][j]) {
      ActivationExtends(g, h, ns[j + 1], [], exp);
    }
    if x.Vec? {
      OperandsExtend(g, h, x.xs);
    }
  }

  /** The first output, followed by the outputs of the other neurons. */
  lemma {:induction false} NeuronsJoin(g: Arena, h: Arena, k: Arena, ns: seq<Neuron>, x: Signal,
                    exp: real -> Value.NonNegative, o: nat, outs: seq<nat>)
    requires Extends(g, h) && Extends(h, k) && ValidNeurons(g, ns) && ValidSignal(g, x) && ns != []
    requires ValidSignal(h, x) && Values(h, x) == Values(g, x) && ValidNeurons(h, ns[1..])
    requires o < |h| && h[o].data == Activation(g, ns[0], Values(g, x), exp)
    requires |outs| == |ns| - 1 && forall j :: 0 <= j < |outs| ==>
      outs[j] < |k| && k[outs[j]].data == Activation(h, ns[1..][j], Values(h, x), exp)
    ensures forall j :: 0 <= j < |ns| ==>
      ([o] + outs)[j] < |k| && k[([o] + outs)[j]].data == Activation(g, ns[j], Values(g, x), exp)
  {
    ExtendsKeeps(h, k);
    forall j | 0 <= j < |ns|
      ensures ([o] + outs)[j] < |k| && k[([o] + outs)[j]].data == Activation(g, ns[j], Values(g, x), exp)
    {
      if j > 0 {
        ActivationExtends(g, h, ns[j], Values(g, x), exp);
        assert ns[1..][j - 1] == ns[j];
      }
    }
  }

  /** The list `[o0, o1, ...]` of output nodes. */
  function Refs(outs: seq<nat>): (r: seq<Operand>)
    ensures |r| == |outs| && forall j :: 0 <= j < |outs| ==> r[j] == Ref(outs[j])
  {
    seq(|outs|, j requires 0 <= j < |outs| => Ref(outs[j]))
  }

  /** `Layer.__call__`: the outputs of its neurons, as a bare value when
      there is exactly one.  It fails when a bare value reaches a neuron. */
  function LayerCall(g: Arena, l: Layer, x: Signal, exp: real -> Value.NonNegative): (r: Result<(Arena, Signal)>)
    requires WellFormed(g) && ValidNeurons(g, l.neurons) && ValidSignal(g, x)
    ensures r.Err? <==> x.Scalar? && |l.neurons| > 0
    ensures r.Err? ==> r.error == NotIterable
    ensures r.Ok? ==> WellFormed(r.value.0) && Extends(g, r.value.0) && ValidSignal(r.value.0, r.value.1)
    ensures r.Ok? ==> (r.value.1.Scalar? <==> |l.neurons| == 1)
    ensures r.Ok? ==> Values(r.value.0, r.value.1) == LayerValues(g, l.neurons, Values(g, x), exp)
    ensures r.Ok? && Value.NonNegativePowers(g) ==> Value.NonNegativePowers(r.value.0)
    ensures r.Ok? && x.Vec? ==> Feeds(r.value.0, r.value.1, l.neurons, x.xs)
  {
    match NeuronsCall(g, l.neurons, x, exp)
    case Err(e) => Err(e)
    case Ok((h, outs)) =>
      LayerOut(g, h, l.neurons, Values(g, x), exp, outs);
      LayerReach(h, l.neurons, x, outs);
      if |outs| == 1 then Ok((h, Scalar(outs[0])))
      else Ok((h, Vec(Refs(outs))))
  }

  /** The values a signal hands on, a bare value as a list of one. */
  function Outs(y: Signal): (r: seq<Operand>)
    ensures y.Scalar? ==> r == [Ref(y.i)]
    ensures y.Vec? ==> r == y.xs
  {
    match y
    case Vec(xs) => xs
    case Scalar(i) => [Ref(i)]
  }

  /** Signal `y` holds one node per neuron of `ns`, and each depends on
      its neuron's bias and on each weight and input node the neuron pairs. */
  ghost predicate Feeds(g: Arena, y: Signal, ns: seq<Neuron>, xs: seq<Operand>)
    requires WellFormed(g)
  {
    |Outs(y)| == |ns| &&
    forall j :: 0 <= j < |ns| ==>
      Outs(y)[j].Ref? && Outs(y)[j].i < |g| && Uses(g, Outs(y)[j].i, ns[j], xs)
  }

  lemma {:induction false} LayerReach(h: Arena, ns: seq<Neuron>, x: Signal, outs: seq<nat>)
    requires WellFormed(h) && |outs| == |ns| && forall j :: 0 <= j < |ns| ==> outs[j] < |h|
    requires x.Vec? ==> forall j :: 0 <= j < |ns| ==> Uses(h, outs[j], ns[j], x.xs)
    ensures x.Vec? && |outs| == 1 ==> Feeds(h, Scalar(outs[0]), ns, x.xs)
    ensures x.Vec? ==> Feeds(h, Vec(Refs(outs)), ns, x.xs)
  {
  }

  /** The output nodes of a layer, read as a signal, mean `LayerValues`. */
  lemma {:induction false} LayerOut(g: Arena, h: Arena, ns: seq<Neuron>, xv: seq<real>,
                                    exp: real -> Value.NonNegative, outs: seq<nat>)
    requires ValidNeurons(g, ns) && |outs| == |ns|
    requires forall j :: 0 <= j < |ns| ==> outs[j] < |h| && h[outs[j]].data == Activation(g, ns[j], xv, exp)
    ensures Operands(h, Refs(outs)) && Data(h, Refs(outs)) == LayerValues(g, ns, xv, exp)
    ensures |outs| == 1 ==> [h[outs[0]].data] == LayerValues(g, ns, xv, exp)
  {
    var v := LayerValues(g, ns, xv, exp);
    assert Operands(h, Refs(outs));
    assert forall j :: 0 <= j < |ns| ==> Data(h, Refs(outs))[j] == v[j];
  }

  /** A bare value reaches a layer with neurons: the input itself, or the
      output of a one-neuron layer followed by a layer with neurons. */
  ghost predicate Blocked(x: Signal, ls: seq<Layer>)
  {
    (|ls| > 0 && x.Scalar? && |ls[0].neurons| > 0) ||
    exists i :: 1 <= i < |ls| && |ls[i - 1].neurons| == 1 && |ls[i].neurons| > 0
  }

  /** `MLP.__call__`: the layers applied in turn.  The result means what
      `Forward` computes, and the call fails exactly when a bare value
      reaches a layer with neurons. */
  function MlpCall(g: Arena, ls: seq<Layer>, x: Signal, exp: real -> Value.NonNegative): (r: Result<(Arena, Signal)>)
    requires WellFormed(g) && ValidLayers(g, ls) && ValidSignal(g, x)
    ensures r.Err? <==> Blocked(x, ls)
    ensures r.Err? ==> r.error == NotIterable
    ensures r.Ok? ==> WellFormed(r.value.0) && Extends(g, r.value.0) && ValidSignal(r.value.0, r.value.1)
    ensures r.Ok? ==> Values(r.value.0, r.value.1) == Forward(g, ls, Values(g, x), exp)
    ensures r.Ok? && ls != [] ==> (r.value.1.Scalar? <==> |ls[|ls| - 1].neurons| == 1)
    ensures r.Ok? && Value.NonNegativePowers(g) ==> Value.NonNegativePowers(r.value.0)
    decreases |ls|
  {
    if ls == [] then Ok((g, x))
    else
      match LayerCall(g, ls[0], x, exp)
      case Err(e) =>
        Err(e)
      case Ok((h, y)) =>
        LayersGrown(g, h, ls, exp);
        var r := MlpCall(h, ls[1..], y, exp);
        BlockedAfter(x, y, ls);
        if r.Err? then Err(r.error)
        else
          var (k, z) := r.value;
          ExtendsTransitive(g, h, k);
          ForwardStep(g, h, ls, Values(g, x), exp);
          Ok((k, z))
  }

  /** When the network's weights fit its input, every output of the network
      depends on the inputs and on every parameter (`Trains`). */
  lemma {:induction false} MlpTrains(g: Arena, ls: seq<Layer>, x: Signal, exp: real -> Value.NonNegative)
    requires WellFormed(g) && ValidLayers(g, ls) && ValidSignal(g, x)
    ensures var r := MlpCall(g, ls, x, exp);
      r.Ok? && x.Vec? && ls != [] && Fits(ls, |x.xs|) ==> Trains(r.value.0, r.value.1, ls, x.xs)
    decreases |ls|
  {
    if ls != [] {
      var l := LayerCall(g, ls[0], x, exp);
      if l.Ok? {
        var (h, y) := l.value;
        LayersGrown(g, h, ls, exp);
        MlpTrains(h, ls[1..], y, exp);
        var r := MlpCall(h, ls[1..], y, exp);
        BlockedAfter(x, y, ls);
        if r.Ok? {
          MlpReach(h, r.value.0, ls, x, y, r.value.1);
        }
      }
    }
  }

  /** Every parameter of `ps` lies in `s`. */
  ghost predicate Within(ps: seq<nat>, s: set<nat>)
  {
    forall p :: p in ps ==> p in s
  }

  /** `ls` takes `nin` values and pairs every weight: each layer has
      neurons, and each neuron as many weights as its layer receives. */
  ghost predicate Fits(ls: seq<Layer>, nin: nat)
    decreases |ls|
  {
    ls != [] ==>
      && |ls[0].neurons| > 0
      && (forall j :: 0 <= j < |ls[0].neurons| ==> |ls[0].neurons[j].w| == nin)
      && Fits(ls[1..], |ls[0].neurons|)
  }

  /** Each value `z` hands on is a node that depends on every input node of
      `xs`, on every parameter of every layer but the last, and on the
      parameters of its own neuron in the last layer. */
  ghost predicate Trains(g: Arena, z: Signal, ls: seq<Layer>, xs: seq<Operand>)
    requires WellFormed(g) && ls != []
  {
    var last := ls[|ls| - 1].neurons;
    |Outs(z)| == |last| &&
    forall j :: 0 <= j < |last| ==>
      && Outs(z)[j].Ref? && Outs(z)[j].i < |g|
      && (forall k :: 0 <= k < |xs| && xs[k].Ref? ==> xs[k].i in Reach(g, Outs(z)[j].i))
      && Within(MlpParams(ls[..|ls| - 1]), Reach(g, Outs(z)[j].i))
      && Within(NeuronParams(last[j]), Reach(g, Outs(z)[j].i))
  }

  /** A node that depends on a neuron and all of whose weights are paired
      depends on all its parameters and on every input node. */
  lemma {:induction false} NeuronWithin(g: Arena, v: nat, n: Neuron, xs: seq<Operand>)
    requires WellFormed(g) && v < |g| && Uses(g, v, n, xs) && |n.w| == |xs|
    ensures Within(NeuronParams(n), Reach(g, v))
    ensures forall k :: 0 <= k < |xs| && xs[k].Ref? ==> xs[k].i in Reach(g, v)
  {
    forall p | p in NeuronParams(n) ensures p in Reach(g, v) {
      if p != n.b {
        assert p in n.w;
        var k :| 0 <= k < |n.w| && n.w[k] == p;
      }
    }
  }

  lemma {:induction false} LayerParamsWithin(ns: seq<Neuron>, s: set<nat>)
    requires forall i :: 0 <= i < |ns| ==> Within(NeuronParams(ns[i]), s)
    ensures Within(LayerParams(ns), s)
    decreases |ns|
  {
    if ns != [] {
      assert forall i :: 0 <= i < |ns| - 1 ==> ns[1..][i] == ns[i + 1];
      LayerParamsWithin(ns[1..], s);
    }
  }

  /** A node that depends on every output of a first layer depends on all
      that layer's parameters and on every input node. */
  lemma {:induction false} FirstLayerWithin(h: Arena, k: Arena, ns: seq<Neuron>, xs: seq<Operand>, ys: seq<Operand>, v: nat)
    requires WellFormed(h) && WellFormed(k) && Extends(h, k) && v < |k|
    requires ns != [] && forall i :: 0 <= i < |ns| ==> |ns[i].w| == |xs|
    requires Feeds(h, Vec(ys), ns, xs)
    requires forall i :: 0 <= i < |ys| && ys[i].Ref? ==> ys[i].i in Reach(k, v)
    ensures Within(LayerParams(ns), Reach(k, v))
    ensures forall i :: 0 <= i < |xs| && xs[i].Ref? ==> xs[i].i in Reach(k, v)
  {
    forall i | 0 <= i < |ns| ensures Within(NeuronParams(ns[i]), Reach(k, v)) {
      ReachGrown(h, k, ys[i].i, v);
      NeuronWithin(h, ys[i].i, ns[i], xs);
    }
    LayerParamsWithin(ns, Reach(k, v));
    ReachGrown(h, k, ys[0].i, v);
    NeuronWithin(h, ys[0].i, ns[0], xs);
  }

  /** The parameters of all layers but the last: the first layer's, then
      those of the rest but its last. */
  lemma {:induction false} InnerParams(ls: seq<Layer>)
    requires |ls| > 1
    ensures MlpParams(ls[..|ls| - 1]) == LayerParams(ls[0].neurons) + MlpParams(ls[1..][..|ls| - 2])
  {
    assert ls[..|ls| - 1][1..] == ls[1..][..|ls| - 2];
  }

  /** What the outputs depend on they still depend on in a grown graph. */
  lemma {:induction false} TrainsExtends(g: Arena, h: Arena, z: Signal, ls: seq<Layer>, xs: seq<Operand>)
    requires WellFormed(g) && WellFormed(h) && Extends(g, h) && ls != [] && Trains(g, z, ls, xs)
    ensures Trains(h, z, ls, xs)
  {
    forall j | 0 <= j < |Outs(z)| ensures Reach(h, Outs(z)[j].i) == Reach(g, Outs(z)[j].i) {
      ReachExtends(g, h, Outs(z)[j].i);
    }
  }

  /** The parameters of a network: those of all layers but the last, then
      the last layer's. */
  lemma {:induction false} MlpParamsSplit(ls: seq<Layer>)
    requires ls != []
    ensures MlpParams(ls) == MlpParams(ls[..|ls| - 1]) + LayerParams(ls[|ls| - 1].neurons)
    decreases |ls|
  {
    if |ls| == 1 {
      assert ls[..0] == [];
    } else {
      var a, b, c := LayerParams(ls[0].neurons), MlpParams(ls[1..][..|ls| - 2]), LayerParams(ls[|ls| - 1].neurons);
      MlpParamsSplit(ls[1..]);
      assert ls[1..][|ls| - 2] == ls[|ls| - 1];
      assert MlpParams(ls[1..]) == b + c;
      InnerParams(ls);
      assert MlpParams(ls) == a + (b + c);
      assert a + (b + c) == (a + b) + c;
    }
  }

  /** When the last layer is a single neuron, its output depends on every
      parameter of the network. */
  lemma {:induction false} TrainsAll(g: Arena, z: Signal, ls: seq<Layer>, xs: seq<Operand>)
    requires WellFormed(g) && ls != [] && |ls[|ls| - 1].neurons| == 1 && Trains(g, z, ls, xs)
    ensures Outs(z)[0].Ref? && Outs(z)[0].i < |g| && Within(MlpParams(ls), Reach(g, Outs(z)[0].i))
  {
    var last := ls[|ls| - 1].neurons;
    MlpParamsSplit(ls);
    assert LayerParams(last) == NeuronParams(last[0]) + LayerParams(last[1..]);
    assert last[1..] == [];
  }

  /** A network shaped by `sz` whose layers all have neurons takes sz[0]
      values and pairs every weight. */
  lemma {:induction false} ShapedFits(ls: seq<Layer>, sz: seq<nat>)
    requires Shaped(ls, sz) && forall i :: 1 <= i < |sz| ==> sz[i] > 0
    ensures Fits(ls, sz[0])
    decreases |ls|
  {
    if ls != [] {
      ShapedTail(ls, sz);
      ShapedFits(ls[1..], sz[1..]);
    }
  }

  /** A network's outputs depend on its inputs and parameters, given that
      the first layer's outputs depend on the inputs and on its own
      parameters and that the rest of the network's outputs depend on the
      first layer's outputs and on the rest's parameters. */
  lemma {:induction false} MlpReach(h: Arena, k: Arena, ls: seq<Layer>, x: Signal, y: Signal, z: Signal)
    requires WellFormed(h) && WellFormed(k) && Extends(h, k) && ls != []
    requires x.Vec? ==> Feeds(h, y, ls[0].neurons, x.xs)
    requires y.Scalar? <==> |ls[0].neurons| == 1
    requires !Blocked(y, ls[1..])
    requires |ls| == 1 ==> k == h && z == y
    requires y.Vec? && |ls| > 1 && Fits(ls[1..], |y.xs|) ==> Trains(k, z, ls[1..], y.xs)
    ensures x.Vec? && Fits(ls, |x.xs|) ==> Trains(k, z, ls, x.xs)
  {
    if x.Vec? && Fits(ls, |x.xs|) {
      if |ls| == 1 {
        OneLayerReach(h, ls, x.xs, y);
      } else {
        assert Fits(ls[1..], |ls[0].neurons|);
        assert ls[1..][0] == ls[1] && |ls[1].neurons| > 0;
        assert y.Vec?;
        DeeperReach(h, k, ls, x.xs, y.xs, z);
      }
    }
  }

  /** A network of one layer: its outputs are the layer's. */
  lemma {:induction false} OneLayerReach(h: Arena, ls: seq<Layer>, xs: seq<Operand>, y: Signal)
    requires WellFormed(h) && |ls| == 1 && Fits(ls, |xs|) && Feeds(h, y, ls[0].neurons, xs)
    ensures Trains(h, y, ls, xs)
  {
    var ns := ls[0].neurons;
    assert ls[..0] == [];
    forall j | 0 <= j < |ns|
      ensures (forall i :: 0 <= i < |xs| && xs[i].Ref? ==> xs[i].i in Reach(h, Outs(y)[j].i))
      ensures Within(NeuronParams(ns[j]), Reach(h, Outs(y)[j].i))
    {
      NeuronWithin(h, Outs(y)[j].i, ns[j], xs);
    }
  }

  /** A network of several layers: each output of the rest depends on every
      output of the first layer, and so on all they depend on. */
  lemma {:induction false} DeeperReach(h: Arena, k: Arena, ls: seq<Layer>, xs: seq<Operand>, ys: seq<Operand>, z: Signal)
    requires WellFormed(h) && WellFormed(k) && Extends(h, k) && |ls| > 1
    requires Fits(ls, |xs|) && Fits(ls[1..], |ls[0].neurons|) && Feeds(h, Vec(ys), ls[0].neurons, xs)
    requires Trains(k, z, ls[1..], ys)
    ensures Trains(k, z, ls, xs)
  {
    var ns, last := ls[0].neurons, ls[|ls| - 1].neurons;
    assert ls[1..][|ls| - 2] == ls[|ls| - 1];
    InnerParams(ls);
    forall j | 0 <= j < |last|
      ensures (forall i :: 0 <= i < |xs| && xs[i].Ref? ==> xs[i].i in Reach(k, Outs(z)[j].i))
      ensures Within(LayerParams(ns), Reach(k, Outs(z)[j].i))
    {
      FirstLayerWithin(h, k, ns, xs, ys, Outs(z)[j].i);
    }
  }

  lemma {:induction false} LayersGrown(g: Arena, h: Arena, ls: seq<Layer>, exp: real -> Value.NonNegative)
    requires Extends(g, h) && ValidLayers(g, ls) && ls != []
    ensures ValidLayers(h, ls[1..])
  {
    forall i | 0 <= i < |ls| - 1 ensures ValidNeurons(h, ls[1..][i].neurons) {
      LayerValuesExtends(g, h, ls[i + 1].neurons, [], exp);
    }
  }

  /** After the first layer, the network is blocked iff the rest is blocked
      on what the first layer handed on. */
  lemma {:induction false} BlockedAfter(x: Signal, y: Signal, ls: seq<Layer>)
    requires ls != [] && !(x.Scalar? && |ls[0].neurons| > 0)
    requires y.Scalar? <==> |ls[0].neurons| == 1
    ensures Blocked(x, ls) <==> Blocked(y, ls[1..])
  {
    var rest := ls[1..];
    if Blocked(y, rest) {
      if |rest| > 0 && y.Scalar? && |rest[0].neurons| > 0 {
        assert 1 <= 1 < |ls| && |ls[0].neurons| == 1 && |ls[1].neurons| > 0;
      } else {
        var i :| 1 <= i < |rest| && |rest[i - 1].neurons| == 1 && |rest[i].neurons| > 0;
        assert ls[i] == rest[i - 1] && ls[i + 1] == rest[i];
      }
    }
    if Blocked(x, ls) {
      var i :| 1 <= i < |ls| && |ls[i - 1].neurons| == 1 && |ls[i].neurons| > 0;
      if i == 1 {
        assert |rest| > 0 && y.Scalar? && |rest[0].neurons| > 0;
      } else {
        assert rest[i - 2] == ls[i - 1] && rest[i - 1] == ls[i];
      }
    }
  }
}
