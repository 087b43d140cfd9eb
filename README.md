# micrograd, scalar autodiff and a small MLP, in Dafny

This project models the core of a small "micrograd" project written in Python.
The core is:

- a scalar `Value` type that records the computation graph as it computes;
- reverse-mode differentiation (`backward`) over that graph;
- `Neuron`, `Layer` and `MLP` classes built from `Value`s;
- the gradient-descent loop that trains an `MLP(3, [4, 4, 1])` on four examples.

It also models the earlier, forward-only `Value` and the `trace` graph walk in
micrograd_from_scrath.py. It proves that the gradients that script sets by hand
for `L = (a * b + c) * f` are the ones `backward` computes.

## How the model is laid out

- `core.dfy` (module `Core`) holds the graph. Python allocates every `Value` on the heap, and
  each one points at its operands. Here every node lives in one arena, a `seq<Node>` in
  allocation order. A node holds `data`, `grad`, its operands in the order its backward
  rule uses them, and an op tag. The tag stands in for the `_backward` closure and the `_op`
  string. `Prev` is Python's `_prev` set, and `Reach` is the set of nodes a root depends on.
  Every operand is allocated before the node that uses it, so the graph is acyclic.
- `value.dfy` (module `Value`) holds the forward operators. Each one returns the grown arena
  and the index of the new node. A plain-number operand becomes a fresh leaf, just as
  `Value(other)` does. The errors Python raises become `Err` results.
- `autograd.dfy` (module `Autograd`) holds the backward pass:
  - `Rule(g, v)` is the arena after `v._backward()` runs.
  - `Adjoint` and `BackwardResult` are an independent chain-rule definition of the gradients
    `backward` leaves.
  - The class `Tape` owns the arena, which its methods update in place. `Tape.RunRule` runs
    one closure. `Tape.Backward` sorts the graph, seeds the root and runs the rules in
    reverse order.
  - The main theorem is `BackwardComputesAdjoint`: for any topological listing of the
    reachable nodes, running the rules in reverse yields `BackwardResult`.
- `sums.dfy` (module `Sums`) holds sums over sequences and index sets, which the proofs use.
- `nn.dfy` (module `Nn`) holds `Neuron`, `Layer` and `MLP`:
  - Construction allocates one fresh leaf per parameter. Each leaf's value comes from a
    `draw` parameter, which stands in for `random.uniform`.
  - A call is specified by `Forward`, the numbers the network computes.
  - A call also states which nodes its outputs depend on (`Reach`): the inputs, and the
    parameters `zip` pairs with them. From this, `Training.PassReach` shows that
    `loss.backward()` reaches every parameter.
- `training.dfy` (module `Training`) holds the forward pass over the examples and the
  squared-error loss. It also holds the zeroing of the parameter gradients, `backward`, the
  update `p.data += -0.1 * p.grad` and the twenty-iteration loop.
- `scratch.dfy` (module `Scratch`) holds the forward-only `Value` and `trace`. `Tracer` is a
  class whose `nodes` and `edges` sets `build` updates in place. The module also holds the
  worked example and its hand-set gradients.

`math.exp` is a parameter `exp: real -> NonNegative`. `tanh` is computed from it as
`(e - 1) / (e + 1)` with `e = exp(2x)`, as the source does. All arithmetic is exact real
arithmetic.

## Model

| member | source | states |
|---|---|---|
| Core.Init | neuron_demo.py:14-20 | A new `Value` is appended after every existing node, which stays unchanged. It has the given data, a gradient of 0.0, the given operands, and a `_prev` equal to the set of its children. |
| Value.Wrap | neuron_demo.py:26 | A `Value` operand is used as it is. A plain number becomes one fresh leaf holding that number, with nothing else changed. |
| Value.Add | neuron_demo.py:25-33 | The new node holds `a.data + other.data`, has a gradient of 0.0, the `+` rule and operands `[a, other]`, and its `_prev` is the set of the two. The graph only grows, by one node, or two when `other` is a number. |
| Value.Mul | neuron_demo.py:35-43 | As for `Add`, with `a.data * other.data` and the `*` rule. |
| Value.Pow | neuron_demo.py:45-53 | A `Value` exponent fails the `isinstance` assertion. An integer exponent succeeds exactly when it is not 0.0 raised to a negative power, which is ZeroDivisionError. On success the node holds `x ** n` and has one operand. |
| Value.RMul | neuron_demo.py:55-56 | `other * a` is `a * other`. It adds one node, or two when `other` is a number (its leaf comes first). The new node holds the product, has gradient 0.0 and the `*` rule, and its operands are `[a, other]` in that order. |
| Value.Div | neuron_demo.py:58-59 | `a / other` succeeds exactly when the divisor is nonzero; otherwise it is ZeroDivisionError. On success it adds two nodes. The first is `other ** -1`: a leaf holding `1 / x` for a number `x`, or a pow node with exponent -1 over a `Value`. The second is the product node with operands `[a, first]`, holding the quotient. |
| Value.DivByNumber | neuron_demo.py:58-59 | For a nonzero number `x`, `a / x` adds the leaf `1 / x` and then the product node `[a, leaf]`, holding `a.data / x`. |
| Value.DivByValue | neuron_demo.py:58-59 | For a nonzero `Value` `b`, `a / b` adds the node `b ** -1` holding `1 / b.data`, and then the product node `[a, b ** -1]`, holding `a.data / b.data`. |
| Value.Neg | neuron_demo.py:61-62 | `-a` adds exactly two nodes: the leaf -1, then the product node with operands `[a, leaf]`, holding `-a.data`. |
| Value.Sub | neuron_demo.py:64-65 | `a - other` holds the difference in a sum node with gradient 0.0. For a number `x`, it adds the leaf `-x` and then the sum node `[a, leaf]`. For a `Value` `b`, it adds `-b` (the leaf -1 and the product `[b, leaf]`), then the sum node `[a, -b]`. |
| Value.RAdd | neuron_demo.py:67-68 | `other + a` is `a + other`. It adds one node, or two when `other` is a number (its leaf comes first). The new node holds the sum, has gradient 0.0 and the `+` rule, and its operands are `[a, other]` in that order. |
| Value.Tanh | neuron_demo.py:70-79 | The node holds `(e - 1) / (e + 1)` with `e = exp(2 * a.data)`, which lies in [-1, 1). Its one operand is `a`, and its rule captures that same `t`. |
| Value.TanhSlope | neuron_demo.py:76 | The factor `1 - t**2` that tanh's rule applies lies in [0, 1]. |
| Value.Exp | neuron_demo.py:81-89 | The node holds `exp(a.data)`, with one operand `a` and the exp rule. |
| Value.AddSelf | neuron_demo.py:25-27 | For `a + a`, `_prev` is the single node `{a}`, while the rule sees `a` in both operand slots. The data is `2 * a.data`. |
| Value.PowTwo | neuron_demo.py:45-47 | `a ** 2` never fails and holds `a.data * a.data`. |
| Autograd.AddRule | neuron_demo.py:29-31 | The `+` rule adds the output's gradient to each operand, or twice that to a node used in both slots. The operands come before the output. |
| Autograd.MulRule | neuron_demo.py:39-41 | The `*` rule adds the other operand's data times the output's gradient to each operand. For `a * a` it adds `2 * a.data` times that gradient. |
| Autograd.UnaryRule | neuron_demo.py:45-89 | The pow rule adds `n * x ** (n - 1)` times the output's gradient. The tanh rule adds `(1 - t * t)` times it, and the exp rule adds the output's data times it. |
| Autograd.LeafUpdate | neuron_demo.py:16 | A leaf's `_backward` changes nothing. |
| Autograd.RuleOnlyAdds | neuron_demo.py:29-87 | A rule adds an amount that does not depend on the operands' own gradients. It leaves every node that is not an operand unchanged. |
| Autograd.BinaryUpdate | neuron_demo.py:29-41 | The two `+=` statements, run one after the other on the arena, give exactly `Rule`, even when both slots name the same node. |
| Autograd.UnaryUpdate | neuron_demo.py:49-87 | One `+=` on the single operand gives exactly `Rule`. |
| Autograd.Tape.RunRule | neuron_demo.py:25-89 | Running the closure of node `v` in place leaves `Rule(old nodes, v)`. |
| Autograd.BuildTopo | neuron_demo.py:95-100 | The returned `topo` extends the input list. It has no duplicates and lists operands before their users. Everything it adds is reachable from `v`, and `v` is in it and is appended last when new. `visited` grows by exactly the nodes appended. |
| Autograd.Topo | neuron_demo.py:93-101 | The sort lists exactly the nodes reachable from the root, in topological order without duplicates, and ends with the root. |
| Autograd.ConsumersRunFirst | neuron_demo.py:104-105 | In `reversed(topo)`, every node's rule runs before the rule of any of its operands. |
| Autograd.BackwardComputesAdjoint | neuron_demo.py:103-105 | Seeding the root with 1.0 and running the rules in reverse topological order leaves exactly the chain-rule gradients `BackwardResult`. This holds for any topological listing of the reachable nodes. |
| Autograd.Tape.Backward | neuron_demo.py:91-105 | `backward`, running the corrected pow rule (see Findings), succeeds exactly when every reachable rule can run. On success the arena is `BackwardResult` of the old one. Data, operands and ops never change. |
| Autograd.AdjointOfRoot | neuron_demo.py:103 | The root's gradient ends at 1.0: it is set, not added to. |
| Autograd.UnreachedUntouched | neuron_demo.py:91-105 | A node the root does not reach keeps its gradient. |
| Autograd.SoleConsumer | neuron_demo.py:91-105 | A node used only by the root gains exactly the root's local derivative for it. |
| Autograd.SingleConsumer | neuron_demo.py:91-105 | A node with a single reachable consumer gains the consumer's local derivative times the consumer's final gradient. |
| Autograd.AddSelfGradient | neuron_demo.py:25-33 | For `b = a + a`, `b.backward()` adds 2 to `a.grad`, not 1: both `+=` statements hit the same object. |
| Autograd.TanhGradient | neuron_demo.py:70-79 | For `o = n.tanh()`, `o.backward()` adds `1 - o.data ** 2` to `n.grad`. |
| Autograd.SubGradient | neuron_demo.py:61-65 | For `a - b` on two distinct nodes, with gradient `x` on the result, running the sum node's rule and then that of `-b` adds `x` to `a.grad` and subtracts `x` from `b.grad`. |
| Autograd.DivGradient | neuron_demo.py:45-59 | For `a / b` on two distinct nodes with `b` nonzero, with gradient `x` on the result, running the product's rule and then that of `b ** -1` adds `x / b` to `a.grad` and `-x * a / b**2` to `b.grad`. |
| Autograd.PowLocalAsWritten | neuron_demo.py:50 | The local derivative as written raises exactly when `x == 0` and `n <= 0`. |
| Autograd.PowLocal | neuron_demo.py:50 | The corrected local derivative agrees with the written one wherever that one is defined, and is 0 for exponent 0. |
| Autograd.ZeroToTheZero | neuron_demo.py:45-53 | `Value(0.0) ** 0` builds fine and holds 1.0. Its rule as written raises, while the corrected rule gives 0. |
| Nn.NewNeuron | neuron_demo.py:260-262 | `Neuron(nin)` allocates `nin + 1` fresh leaves holding drawn values, and nothing else. Its `parameters()` are those leaves in allocation order, weights then bias. |
| Nn.NewLayer | neuron_demo.py:275-276 | `Layer(nin, nout)` has `nout` neurons of `nin` weights each. Its parameters are exactly the fresh leaves it allocated, in order. |
| Nn.LayerParamCount | neuron_demo.py:282-283 | A layer's parameter list has `nout * (nin + 1)` entries. |
| Nn.NewMlp | neuron_demo.py:287-289 | `MLP(nin, nouts)` has layers shaped by consecutive sizes. Its parameters are exactly the fresh leaves it allocated, in order, and there are `ParamCount([nin] + nouts)` of them. |
| Nn.MlpParamCount | neuron_demo.py:296-297 | The network's parameter list has `ParamCount(sz)` entries. |
| Nn.DemoParamCount | neuron_demo.py:304 | `MLP(3, [4, 4, 1])` has 41 parameters. |
| Nn.Dot | neuron_demo.py:266 | `sum(wi*xi for ..., b)` yields a node holding `b.data` plus the weighted sum over the pairs `zip` forms, stopping at the shorter list. The graph only grows. The node depends on `b`, on every weight `zip` pairs, and on every input node it pairs. |
| Nn.Fire | neuron_demo.py:264-268 | A neuron called on a list yields a node holding tanh of that pre-activation. The node depends on the bias, on every paired weight and on every paired input node (`Uses`). |
| Nn.NeuronCall | neuron_demo.py:264-268 | Calling a neuron fails exactly when it is given a bare `Value`, which cannot be zipped. Otherwise the output node holds `Activation` and depends on the neuron's bias and paired weights and on the paired input nodes. |
| Nn.NeuronsCall | neuron_demo.py:279 | The outputs are built in order, each holding its neuron's activation on the same input. On a list input, each output depends on its own neuron's bias, its paired weights and the paired input nodes. |
| Nn.LayerCall | neuron_demo.py:278-280 | A layer fails exactly when a bare `Value` meets at least one neuron. Otherwise it returns the outputs, or the single output itself for one neuron, and they mean `LayerValues`. On a list input, output `j` depends on neuron `j`'s bias and paired weights and on the paired input nodes (`Feeds`). |
| Nn.MlpCall | neuron_demo.py:291-294 | The network fails exactly when a bare `Value` reaches a layer with neurons. Otherwise the result means `Forward`, and it is a bare `Value` exactly when the last layer has one neuron. |
| Nn.MlpTrains | neuron_demo.py:291-294 | When each layer is nonempty and each neuron has as many weights as its layer has inputs (`Fits`), every output of the network depends on every input node, on every parameter of every layer but the last, and on all parameters of its own neuron in the last layer (`Trains`). |
| Training.Predict | neuron_demo.py:332 | `[n(x) for x in xs]` yields one prediction per example, and each one means `Forward` on the graph before the pass. |
| Training.Term | neuron_demo.py:333 | `(yout - ygt)**2` holds the squared error. A list prediction fails, as a list minus a number. |
| Training.TermReach | neuron_demo.py:333 | The node `(yout - ygt)**2` depends on the prediction `yout`. |
| Training.AddTerm | neuron_demo.py:333 | One step of `sum` adds the next squared error to the running sum. |
| Training.AddTermUses | neuron_demo.py:333 | The new running-sum node depends on the prediction just added, and on the previous running sum when that is a node. |
| Training.Sum | neuron_demo.py:333 | `sum(...)` fails exactly when a prediction that `zip` pairs with a target is a list. With no pairs it returns the start value 0. Otherwise it returns a fresh node holding the sum of squared errors. |
| Training.SumCollects | neuron_demo.py:333 | A sum that ends in a node depends on its start value, when that is a node, and on every prediction `zip` pairs with a target. |
| Training.PredictReach | neuron_demo.py:332 | When the network fits example `k`, prediction `k` depends on every parameter of every layer but the last and on all those of its own last-layer neuron. |
| Training.PassLoss | neuron_demo.py:332-333 | For a network ending in one neuron, the pass fails exactly when a bare value reaches a later layer. The loss is a node exactly when there are examples and targets, and it holds `SquaredError` of the network's predictions. |
| Training.PassReach | neuron_demo.py:332-338 | For a network ending in one neuron that fits the first example, with examples and targets, the loss is a node that depends on every one of `n.parameters()`. So `loss.backward()` reaches each parameter that the update then moves. |
| Training.ZeroGrads | neuron_demo.py:336-337 | Afterwards every listed parameter's gradient is 0.0, and nothing else changed. |
| Training.Descend | neuron_demo.py:341-342 | Each parameter's data moves by -0.1 times its gradient, once per time it is listed, and nothing else changed. |
| Training.DescendOnce | neuron_demo.py:341-342 | With no parameter listed twice, each parameter moves exactly once and every other node is unchanged. |
| Training.ParamsDistinct | neuron_demo.py:296-297 | A network's parameter list has no duplicates. |
| Training.NonNegativeRules | neuron_demo.py:338 | Under the corrected pow rule (see Findings), no rule of a graph without negative powers can fail, so `loss.backward()` always runs to the end. |
| Training.BackwardThenUpdate | neuron_demo.py:338-342 | After `backward` and then the update, the graph is `Descended(BackwardResult(...))`. |
| Training.TrainStep | neuron_demo.py:331-344 | A failing pass leaves the graph unchanged. A loss that is the int 0 raises at `.backward()`, after the zeroing. Otherwise the step returns the loss's data, and the graph is the zeroed, back-propagated and updated one. Graph and outcome together are `Epoch` of the old graph. |
| Training.TrainedStuck | neuron_demo.py:329-344 | Once an iteration raises, later iterations do not run: the graph and the error stay those of the first failure. |
| Training.TrainedOk | neuron_demo.py:329-344 | For a network ending in one neuron, with no bare value reaching a layer and with examples and targets, no iteration raises, however many run. |
| Training.Iterate | neuron_demo.py:329-344 | After `k` iterations that did not raise, one more either appends its loss to the `Trained` outcome of `k + 1`, or its error is the outcome of the whole loop. |
| Training.Train | neuron_demo.py:329-344 | The graph and outcome are `Trained` after `epochs` iterations: every loss in order, or the error of the first iteration that raises, on the graph it left. For a network ending in one neuron, with examples and targets, all iterations run. |
| Training.DemoShape | neuron_demo.py:304 | `MLP(3, [4, 4, 1])` ends in one neuron, and no bare value reaches a layer. |
| Training.DemoLoss | neuron_demo.py:311-333 | On the four examples the pass never fails. The loss is a node holding the sum of squared errors of the four predictions. |
| Training.DemoReach | neuron_demo.py:304-338 | For `MLP(3, [4, 4, 1])` on the script's examples, the loss node depends on all 41 parameters. |
| Training.Build | neuron_demo.py:304 | The network is built on a fresh graph whose nodes are exactly its parameters, `ParamCount([nin] + nouts)` of them. Each is a fresh leaf holding its drawn value with gradient 0.0, as `Value(random.uniform(-1, 1))` makes. |
| Training.Run | neuron_demo.py:303-344 | The script builds `MLP(3, [4, 4, 1])` on a graph of 41 fresh drawn leaves, which are exactly its parameters. The twenty losses it prints, in order, are the losses `Trained` gives for twenty iterations from that graph. None of the iterations raises. |
| Scratch.Add | micrograd_from_scrath.py:52-54 | The forward-only `+` fails with a missing `.data` exactly when `other` is a number. Otherwise it appends a node holding the sum whose `_prev` is `{a, other}`. |
| Scratch.Mul | micrograd_from_scrath.py:55-57 | As for `Add`, with the product. |
| Scratch.SameAdd | micrograd_from_scrath.py:52-54 | On two `Value`s, the earlier `+` builds the same graph as the later one. |
| Scratch.SameMul | micrograd_from_scrath.py:55-57 | On two `Value`s, the earlier `*` builds the same graph as the later one. |
| Scratch.Tracer.Build | micrograd_from_scrath.py:82-87 | `build(v)` records exactly the nodes `v` reaches. It records exactly the edges into the newly recorded nodes, from each of their operands. |
| Scratch.Trace | micrograd_from_scrath.py:79-89 | `trace(root)` returns the reachable nodes, and for each of them an edge from each operand. |
| Scratch.TraceShape | micrograd_from_scrath.py:79-89 | The node set holds the root, holds each member's operands, and is the least such set. `(c, v)` is an edge exactly when `v` is listed and `c` is one of its operands. |
| Scratch.WorkedExampleValues | micrograd_from_scrath.py:59-70 | The script builds a=2, b=-3, c=10, e=-6, d=4, f=-2 and L=-8, with the operands as written. |
| Scratch.ExampleAdjoints | micrograd_from_scrath.py:112-125 | From any starting gradients, `L.backward()` adds exactly the chain rule worked by hand. |
| Scratch.HandGradsAreBackward | micrograd_from_scrath.py:115-125 | The hand-set gradients are exactly what `L.backward()` computes. |
| Scratch.HandDerive | micrograd_from_scrath.py:115-125 | The seven in-place assignments leave the same arena as `L.backward()`. |
| Scratch.SecondBackward | neuron_demo.py:103-105 | A second `backward` without zeroing resets only the root. Every other gradient is added to again, so a, b, c, e, d and f reach 24, -16, -6, -6, -4 and 8. |

`trace` appears twice in the source, at micrograd_from_scrath.py:79-89 and at
neuron_demo.py:110-120, with identical bodies. `Scratch.Trace` models both.

## Left out

- Floating point: all arithmetic is exact over the reals, so rounding, overflow, `inf` and `nan` are not modelled.
- `math.exp` is a parameter that returns some non-negative real; its values are not specified.
- `random.uniform(-1, 1)` is a `draw` parameter indexed by node.
- Nn.NewNeuron: does not state that the drawn values lie in [-1, 1], because `draw` is unconstrained.
- Value.Pow: float exponents (such as `a ** 0.5`), which the `isinstance` check accepts, are not modelled; only integer exponents are.
- Autograd.BuildTopo: Python's recursion limit is not modelled. `build_topo`, and `build` in `Scratch.Tracer.Build`, recurse once per level of the graph and raise RecursionError on a deep enough graph; the model has no depth limit.
- Python `set` iteration order in `build_topo` and `build` is an arbitrary choice (`:|`). The contracts hold for every order.
- Identity is an index into the arena. Object aliasing beyond what the operand indices express is not modelled.
- Autograd.Tape.Backward: when a rule raises partway through, it states only that data, operands and ops are unchanged. It does not say which gradients were already updated.
- The forward operators return a new arena instead of mutating shared state. When an operator raises, the graph is unchanged.
- Training.PassLoss: stated for networks whose last layer has one neuron, as in the script. For a wider last layer, `Training.Sum` states that the loss fails as soon as a pair exists.
- Plotting with numpy and matplotlib, `draw_dot` and graphviz rendering, and the PyTorch comparison are output only.
- `print`, `__repr__`, `label` and the `_op` strings are output only. The op tag keeps what the backward rules need.
- The finite-difference experiments and `lol()` in micrograd_from_scrath.py, the `f(x)` polynomial, and the `+= 0.01 * grad` nudges at micrograd_from_scrath.py:168-171 are exploratory and are not part of the core.
- The extra `n(x)` calls at neuron_demo.py:303-306 are not modelled. They only add unused nodes to the graph.

## Findings

| source | as written | input that shows it | evidently intended | confidence | as-written member | corrected member |
|---|---|---|---|---|---|---|
| neuron_demo.py:50 | The pow rule computes `other * self.data ** (other - 1)`. At `x = 0` with exponent 0 this evaluates `0.0 ** -1`, which raises ZeroDivisionError during `backward`, although the forward `0.0 ** 0` succeeded with 1.0. | `(Value(0.0) ** 0).backward()` | The derivative of `x ** 0` is 0 everywhere, so the rule should add 0. | not executed | Autograd.PowLocalAsWritten | Autograd.PowLocal |

`Autograd.ZeroToTheZero` exhibits the discrepancy. The backward rules in `Autograd.Local`
use `Autograd.PowLocal`.
