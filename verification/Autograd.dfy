/**
 Reverse-mode differentiation as in flashlight/fl/autograd/Variable.cpp, with the arithmetic
 operators of flashlight/fl/autograd/Functions.cpp. Arrays are single real numbers: the
 operators modelled work element by element.

 A `Variable` is a pair of its data, which a copy kept for the backward pass may have
 dropped, and a shared `SharedGrad` object, which is what makes subterms shared.
 */
module Autograd {
  import opened Options
  import opened Reals
  import opened Calculus
  import opened Graph
  import D = Dag

  datatype Variable = Variable(data: Option<real>, shared: SharedGrad)

  class SharedGrad {
    const calcGrad: bool
    const gradFunc: Op                  // Constant when there is no gradient function
    var inputs: seq<Variable>
    var grad: Option<real>
    var hook: Option<real -> real>      // what a gradient hook does to the gradient it is given
    var fired: seq<real>                // the gradients the hook was given so far
    ghost const value: real             // the forward value
    ghost const rank: nat               // above the ranks of the inputs

    constructor (data: real, calcGrad: bool, gradFunc: Op, inputs: seq<Variable>)
      ensures this.calcGrad == calcGrad && this.gradFunc == gradFunc && this.inputs == inputs
      ensures this.value == data && grad == None && hook == None && fired == []
      ensures forall k | 0 <= k < |inputs| :: inputs[k].shared.rank < rank
    {
      this.calcGrad, this.gradFunc, this.inputs := calcGrad, gradFunc, inputs;
      this.grad, this.hook, this.fired := None, None, [];
      this.value := data;
      this.rank := RankAbove(inputs);
    }

    /** Accumulates a gradient; a no-op when gradients are not calculated. */
    method AddGrad(x: real)
      modifies this`grad
      ensures grad == if calcGrad then D.Plus(old(grad), x) else old(grad)
    {
      if calcGrad {
        match grad
        case Some(y) => grad := Some(y + x);
        case None => grad := Some(x);
      }
    }

    /** Runs the gradient function on the inputs; fails when no gradient has arrived. */
    method CalcGradInputs(retainGraph: bool) returns (ok: bool)
      requires Kept(this)
      modifies this`inputs, Shareds(inputs)`grad
      ensures ok <==> gradFunc == Constant || old(grad).Some?
      ensures !ok ==> unchanged(this) && unchanged(old(Shareds(inputs)))
      ensures ok ==> inputs == if retainGraph then old(inputs) else []
      ensures ok && gradFunc != Constant ==> forall n | n in old(Shareds(inputs)) ::
                n.grad == Fed(old(n.grad), n, old(inputs),
                              Contributions(gradFunc, InputValues(old(inputs)), old(grad).value), |old(inputs)|)
      ensures grad == old(grad)
    {
      assert this !in Shareds(inputs);
      if gradFunc != Constant {
        if grad == None {
          return false;
        }
        RunGradFunc(gradFunc, inputs, grad.value);
      }
      if !retainGraph {
        inputs := [];
      }
      ok := true;
    }

    /** Hands the gradient to the hook, if there is one. */
    method ApplyGradHook()
      requires hook.Some? ==> grad.Some?
      modifies this`grad, this`fired
      ensures hook == None ==> unchanged(this)
      ensures hook.Some? ==> fired == old(fired) + [old(grad).value] && grad == Some(hook.value(old(grad).value))
    {
      if hook.Some? {
        fired := fired + [grad.value];
        grad := Some(hook.value(grad.value));
      }
    }
  }

  ghost function RankAbove(inputs: seq<Variable>): (r: nat)
    ensures forall k | 0 <= k < |inputs| :: inputs[k].shared.rank < r
  {
    if inputs == [] then 0
    else
      var r, last := RankAbove(inputs[..|inputs| - 1]), inputs[|inputs| - 1].shared.rank;
      if last < r then r else last + 1
  }

  ghost function Shareds(vs: seq<Variable>): set<SharedGrad> {
    set k | 0 <= k < |vs| :: vs[k].shared
  }

  ghost function InputValues(vs: seq<Variable>): (xs: seq<real>)
    ensures |xs| == |vs|
  {
    seq(|vs|, k requires 0 <= k < |vs| => vs[k].shared.value)
  }

  // ---------------------------------------------------------------- what a node keeps

  /** Data that is kept is the forward value. */
  ghost predicate Truthful(v: Variable) {
    v.data.Some? ==> v.data.value == v.shared.value
  }

  /** A variable in the hands of a caller: its data is there. */
  ghost predicate Whole(v: Variable) {
    v.data == Some(v.shared.value)
  }

  /** The inputs keep the data their operator's gradient function reads. */
  ghost predicate Equipped(op: Op, vs: seq<Variable>)
    requires |vs| == Arity(op)
  {
    match op
    case Mul => (vs[0].shared.calcGrad ==> vs[1].data.Some?) && (vs[1].shared.calcGrad ==> vs[0].data.Some?)
    case Div => vs[1].data.Some? && (vs[1].shared.calcGrad ==> vs[0].data.Some?)
    case ScalarDiv(_) => vs[0].data.Some?
    case Reciprocal => vs[0].data.Some?
    case _ => true
  }

  /** The inputs a node was built with. */
  ghost predicate Keeps(n: SharedGrad, inputs: seq<Variable>) {
    && |inputs| == Arity(n.gradFunc)
    && (forall k | 0 <= k < |inputs| :: inputs[k].shared.rank < n.rank && Truthful(inputs[k]))
    && (n.gradFunc != Constant ==>
         && n.calcGrad
         && Defined(n.gradFunc, InputValues(inputs))
         && n.value == Apply(n.gradFunc, InputValues(inputs)))
    && Equipped(n.gradFunc, inputs)
  }

  ghost predicate Kept(n: SharedGrad)
    reads n`inputs
  {
    Keeps(n, n.inputs)
  }

  /** A set of nodes that holds the inputs of its nodes. */
  ghost predicate Closed(nodes: set<SharedGrad>)
    reads nodes`inputs
  {
    forall n | n in nodes :: Kept(n) && Shareds(n.inputs) <= nodes
  }

  // ---------------------------------------------------------------- operators

  /** The copy of a variable that drops its data but shares its gradient. */
  function WithoutData(v: Variable): Variable {
    v.(data := None)
  }

  /** A leaf. */
  method Leaf(x: real, calcGrad: bool, ghost nodes: set<SharedGrad>) returns (r: Variable)
    requires Closed(nodes)
    ensures fresh(r.shared) && Whole(r) && r.shared.value == x && r.shared.calcGrad == calcGrad
    ensures r.shared.grad == None && r.shared.hook == None && Closed(nodes + {r.shared})
  {
    var s := new SharedGrad(x, calcGrad, Constant, []);
    r := Variable(Some(x), s);
  }

  /** The result of an operator: it remembers its inputs only when one of them calculates gradients. */
  method Result(x: real, inputs: seq<Variable>, op: Op, ghost nodes: set<SharedGrad>) returns (r: Variable)
    requires Closed(nodes) && Shareds(inputs) <= nodes
    requires op != Constant && |inputs| == Arity(op) && Defined(op, InputValues(inputs)) && Equipped(op, inputs)
    requires (forall k | 0 <= k < |inputs| :: Truthful(inputs[k])) && x == Apply(op, InputValues(inputs))
    ensures fresh(r.shared) && Whole(r) && r.shared.value == x
    ensures r.shared.calcGrad == exists k :: 0 <= k < |inputs| && inputs[k].shared.calcGrad
    ensures r.shared.gradFunc == (if r.shared.calcGrad then op else Constant)
    ensures r.shared.inputs == (if r.shared.calcGrad then inputs else [])
    ensures r.shared.grad == None && r.shared.hook == None && Closed(nodes + {r.shared})
  {
    var any := exists k :: 0 <= k < |inputs| && inputs[k].shared.calcGrad;
    var s;
    if any {
      s := new SharedGrad(x, true, op, inputs);
    } else {
      s := new SharedGrad(x, false, Constant, []);
    }
    r := Variable(Some(x), s);
  }

  /**
   The result remembers its operator and its operands exactly when it calculates gradients, each
   operand with its data or, where the gradient function does not read it, without.
   */
  ghost predicate Remembers(n: SharedGrad, op: Op, operands: seq<Variable>, kept: seq<bool>)
    requires |operands| == |kept|
    reads n`inputs
  {
    if n.calcGrad then
      && n.gradFunc == op && |n.inputs| == |operands|
      && forall k | 0 <= k < |operands| :: n.inputs[k] == if kept[k] then operands[k] else WithoutData(operands[k])
    else
      n.gradFunc == Constant && n.inputs == []
  }

  /** lhs + rhs; neither operand is needed again. */
  method Plus(lhs: Variable, rhs: Variable, ghost nodes: set<SharedGrad>) returns (r: Variable)
    requires Closed(nodes) && {lhs.shared, rhs.shared} <= nodes && Whole(lhs) && Whole(rhs)
    ensures fresh(r.shared) && Whole(r) && r.shared.value == lhs.shared.value + rhs.shared.value
    ensures r.shared.calcGrad == (lhs.shared.calcGrad || rhs.shared.calcGrad)
    ensures Remembers(r.shared, Add, [lhs, rhs], [false, false])
    ensures r.shared.grad == None && r.shared.hook == None && Closed(nodes + {r.shared})
  {
    var inputs := [WithoutData(lhs), WithoutData(rhs)];
    assert InputValues(inputs) == [lhs.shared.value, rhs.shared.value];
    r := Result(lhs.data.value + rhs.data.value, inputs, Add, nodes);
    assert r.shared.calcGrad ==> inputs[0].shared.calcGrad || inputs[1].shared.calcGrad;
    assert inputs[0].shared == lhs.shared && inputs[1].shared == rhs.shared;
  }

  /** lhs - rhs; neither operand is needed again. */
  method Minus(lhs: Variable, rhs: Variable, ghost nodes: set<SharedGrad>) returns (r: Variable)
    requires Closed(nodes) && {lhs.shared, rhs.shared} <= nodes && Whole(lhs) && Whole(rhs)
    ensures fresh(r.shared) && Whole(r) && r.shared.value == lhs.shared.value - rhs.shared.value
    ensures r.shared.calcGrad == (lhs.shared.calcGrad || rhs.shared.calcGrad)
    ensures Remembers(r.shared, Sub, [lhs, rhs], [false, false])
    ensures r.shared.grad == None && r.shared.hook == None && Closed(nodes + {r.shared})
  {
    var inputs := [WithoutData(lhs), WithoutData(rhs)];
    assert InputValues(inputs) == [lhs.shared.value, rhs.shared.value];
    r := Result(lhs.data.value - rhs.data.value, inputs, Sub, nodes);
    assert r.shared.calcGrad ==> inputs[0].shared.calcGrad || inputs[1].shared.calcGrad;
    assert inputs[0].shared == lhs.shared && inputs[1].shared == rhs.shared;
  }

  /** lhs * rhs; an operand keeps its data when the other one is differentiated. */
  method Multiply(lhs: Variable, rhs: Variable, ghost nodes: set<SharedGrad>) returns (r: Variable)
    requires Closed(nodes) && {lhs.shared, rhs.shared} <= nodes && Whole(lhs) && Whole(rhs)
    ensures fresh(r.shared) && Whole(r) && r.shared.value == Times(lhs.shared.value, rhs.shared.value)
    ensures r.shared.calcGrad == (lhs.shared.calcGrad || rhs.shared.calcGrad)
    ensures Remembers(r.shared, Mul, [lhs, rhs], [rhs.shared.calcGrad, lhs.shared.calcGrad])
    ensures r.shared.grad == None && r.shared.hook == None && Closed(nodes + {r.shared})
  {
    var inputs := [if rhs.shared.calcGrad then lhs else WithoutData(lhs),
        if lhs.shared.calcGrad then rhs else WithoutData(rhs)];
    assert InputValues(inputs) == [lhs.shared.value, rhs.shared.value];
    r := Result(Times(lhs.data.value, rhs.data.value), inputs, Mul, nodes);
    assert r.shared.calcGrad ==> inputs[0].shared.calcGrad || inputs[1].shared.calcGrad;
    assert inputs[0].shared == lhs.shared && inputs[1].shared == rhs.shared;
  }

  /** lhs / rhs; the divisor keeps its data, the dividend when the divisor is differentiated. */
  method Divide(lhs: Variable, rhs: Variable, ghost nodes: set<SharedGrad>) returns (r: Variable)
    requires Closed(nodes) && {lhs.shared, rhs.shared} <= nodes && Whole(lhs) && Whole(rhs)
    requires rhs.shared.value != 0.0
    ensures fresh(r.shared) && Whole(r) && r.shared.value == lhs.shared.value / rhs.shared.value
    ensures r.shared.calcGrad == (lhs.shared.calcGrad || rhs.shared.calcGrad)
    ensures Remembers(r.shared, Div, [lhs, rhs], [rhs.shared.calcGrad, true])
    ensures r.shared.grad == None && r.shared.hook == None && Closed(nodes + {r.shared})
  {
    var inputs := [if rhs.shared.calcGrad then lhs else WithoutData(lhs), rhs];
    assert InputValues(inputs) == [lhs.shared.value, rhs.shared.value];
    r := Result(lhs.data.value / rhs.data.value, inputs, Div, nodes);
    assert r.shared.calcGrad ==> inputs[0].shared.calcGrad || inputs[1].shared.calcGrad;
    assert inputs[0].shared == lhs.shared && inputs[1].shared == rhs.shared;
  }

  /** v + k */
  method PlusScalar(v: Variable, k: real, ghost nodes: set<SharedGrad>) returns (r: Variable)
    requires Closed(nodes) && v.shared in nodes && Whole(v)
    ensures fresh(r.shared) && Whole(r) && r.shared.value == v.shared.value + k
    ensures r.shared.calcGrad == v.shared.calcGrad
    ensures Remembers(r.shared, AddScalar(k), [v], [false])
    ensures r.shared.grad == None && r.shared.hook == None && Closed(nodes + {r.shared})
  {
    var inputs := [WithoutData(v)];
    assert InputValues(inputs) == [v.shared.value];
    r := Result(v.data.value + k, inputs, AddScalar(k), nodes);
    assert inputs[0].shared == v.shared;
  }

  /** v - k */
  method MinusScalar(v: Variable, k: real, ghost nodes: set<SharedGrad>) returns (r: Variable)
    requires Closed(nodes) && v.shared in nodes && Whole(v)
    ensures fresh(r.shared) && Whole(r) && r.shared.value == v.shared.value - k
    ensures r.shared.calcGrad == v.shared.calcGrad
    ensures Remembers(r.shared, SubScalar(k), [v], [false])
    ensures r.shared.grad == None && r.shared.hook == None && Closed(nodes + {r.shared})
  {
    var inputs := [WithoutData(v)];
    assert InputValues(inputs) == [v.shared.value];
    r := Result(v.data.value - k, inputs, SubScalar(k), nodes);
    assert inputs[0].shared == v.shared;
  }

  /** k - v */
  method ScalarMinus(k: real, v: Variable, ghost nodes: set<SharedGrad>) returns (r: Variable)
    requires Closed(nodes) && v.shared in nodes && Whole(v)
    ensures fresh(r.shared) && Whole(r) && r.shared.value == k - v.shared.value
    ensures r.shared.calcGrad == v.shared.calcGrad
    ensures Remembers(r.shared, ScalarSub(k), [v], [false])
    ensures r.shared.grad == None && r.shared.hook == None && Closed(nodes + {r.shared})
  {
    var inputs := [WithoutData(v)];
    assert InputValues(inputs) == [v.shared.value];
    r := Result(k - v.data.value, inputs, ScalarSub(k), nodes);
    assert inputs[0].shared == v.shared;
  }

  /** v * k */
  method MultiplyScalar(v: Variable, k: real, ghost nodes: set<SharedGrad>) returns (r: Variable)
    requires Closed(nodes) && v.shared in nodes && Whole(v)
    ensures fresh(r.shared) && Whole(r) && r.shared.value == Times(v.shared.value, k)
    ensures r.shared.calcGrad == v.shared.calcGrad
    ensures Remembers(r.shared, MulScalar(k), [v], [false])
    ensures r.shared.grad == None && r.shared.hook == None && Closed(nodes + {r.shared})
  {
    var inputs := [WithoutData(v)];
    assert InputValues(inputs) == [v.shared.value];
    r := Result(Times(v.data.value, k), inputs, MulScalar(k), nodes);
    assert inputs[0].shared == v.shared;
  }

  /** v / k */
  method DivideScalar(v: Variable, k: real, ghost nodes: set<SharedGrad>) returns (r: Variable)
    requires Closed(nodes) && v.shared in nodes && Whole(v) && k != 0.0
    ensures fresh(r.shared) && Whole(r) && r.shared.value == v.shared.value / k
    ensures r.shared.calcGrad == v.shared.calcGrad
    ensures Remembers(r.shared, DivScalar(k), [v], [false])
    ensures r.shared.grad == None && r.shared.hook == None && Closed(nodes + {r.shared})
  {
    var inputs := [WithoutData(v)];
    assert InputValues(inputs) == [v.shared.value];
    r := Result(v.data.value / k, inputs, DivScalar(k), nodes);
    assert inputs[0].shared == v.shared;
  }

  /** k / v; the divisor keeps its data. */
  method ScalarDivide(k: real, v: Variable, ghost nodes: set<SharedGrad>) returns (r: Variable)
    requires Closed(nodes) && v.shared in nodes && Whole(v) && v.shared.value != 0.0
    ensures fresh(r.shared) && Whole(r) && r.shared.value == k / v.shared.value
    ensures r.shared.calcGrad == v.shared.calcGrad
    ensures Remembers(r.shared, ScalarDiv(k), [v], [true])
    ensures r.shared.grad == None && r.shared.hook == None && Closed(nodes + {r.shared})
  {
    var inputs := [v];
    assert InputValues(inputs) == [v.shared.value];
    r := Result(k / v.data.value, inputs, ScalarDiv(k), nodes);
    assert inputs[0].shared == v.shared;
  }

  /** 0 - v */
  method Negated(v: Variable, ghost nodes: set<SharedGrad>) returns (r: Variable)
    requires Closed(nodes) && v.shared in nodes && Whole(v)
    ensures fresh(r.shared) && Whole(r) && r.shared.value == -v.shared.value
    ensures r.shared.calcGrad == v.shared.calcGrad
    ensures Remembers(r.shared, Negate, [v], [false])
    ensures r.shared.grad == None && r.shared.hook == None && Closed(nodes + {r.shared})
  {
    var inputs := [WithoutData(v)];
    assert InputValues(inputs) == [v.shared.value];
    r := Result(0.0 - v.data.value, inputs, Negate, nodes);
    assert inputs[0].shared == v.shared;
  }

  /** 1 / v; the operand keeps its data. */
  method Inverted(v: Variable, ghost nodes: set<SharedGrad>) returns (r: Variable)
    requires Closed(nodes) && v.shared in nodes && Whole(v) && v.shared.value != 0.0
    ensures fresh(r.shared) && Whole(r) && r.shared.value == 1.0 / v.shared.value
    ensures r.shared.calcGrad == v.shared.calcGrad
    ensures Remembers(r.shared, Op.Reciprocal, [v], [true])
    ensures r.shared.grad == None && r.shared.hook == None && Closed(nodes + {r.shared})
  {
    var inputs := [v];
    assert InputValues(inputs) == [v.shared.value];
    r := Result(1.0 / v.data.value, inputs, Op.Reciprocal, nodes);
    assert inputs[0].shared == v.shared;
  }

  // ---------------------------------------------------------------- gradient functions

  /** The gradient handed to each input: the gradient of the output times the local derivative. */
  ghost function Contributions(op: Op, xs: seq<real>, g: real): (cs: seq<real>)
    requires |xs| == Arity(op)
    ensures |cs| == |xs|
  {
    seq(|xs|, k requires 0 <= k < |xs| => Times(g, Partials(op, xs)[k]))
  }

  /** The gradient of n after the first k inputs were fed; n may be more than one of them. */
  ghost function Fed(start: Option<real>, n: SharedGrad, inputs: seq<Variable>, cs: seq<real>, k: nat): Option<real>
    requires k <= |inputs| == |cs|
  {
    if k == 0 then start
    else if inputs[k - 1].shared == n && n.calcGrad then D.Plus(Fed(start, n, inputs, cs, k - 1), cs[k - 1])
    else Fed(start, n, inputs, cs, k - 1)
  }

  /** Two contributions in turn; each is a no-op for an input that is not differentiated. */
  method FeedTwo(inputs: seq<Variable>, c0: real, c1: real, ghost cs: seq<real>)
    requires |inputs| == |cs| == 2
    requires inputs[0].shared.calcGrad ==> c0 == cs[0]
    requires inputs[1].shared.calcGrad ==> c1 == cs[1]
    modifies Shareds(inputs)`grad
    ensures forall n | n in Shareds(inputs) :: n.grad == Fed(old(n.grad), n, inputs, cs, 2)
  {
    assert {inputs[0].shared, inputs[1].shared} == Shareds(inputs);
    inputs[0].shared.AddGrad(c0);
    assert forall n | n in Shareds(inputs) :: n.grad == Fed(old(n.grad), n, inputs, cs, 1) by {
      assert forall n: SharedGrad | n in Shareds(inputs) :: Fed(old(n.grad), n, inputs, cs, 0) == old(n.grad);
    }
    inputs[1].shared.AddGrad(c1);
  }

  method FeedOne(inputs: seq<Variable>, c0: real, ghost cs: seq<real>)
    requires |inputs| == |cs| == 1 && c0 == cs[0]
    modifies Shareds(inputs)`grad
    ensures forall n | n in Shareds(inputs) :: n.grad == Fed(old(n.grad), n, inputs, cs, 1)
  {
    assert {inputs[0].shared} == Shareds(inputs);
    inputs[0].shared.AddGrad(c0);
    assert forall n: SharedGrad | n in Shareds(inputs) :: Fed(old(n.grad), n, inputs, cs, 0) == old(n.grad);
  }

  /** Runs the gradient function of an operator; it only reads data that is still there. */
  method RunGradFunc(op: Op, inputs: seq<Variable>, g: real)
    requires op != Constant && |inputs| == Arity(op) && Equipped(op, inputs) && Defined(op, InputValues(inputs))
    requires forall k | 0 <= k < |inputs| :: Truthful(inputs[k])
    modifies Shareds(inputs)`grad
    ensures forall n | n in Shareds(inputs) ::
              n.grad == Fed(old(n.grad), n, inputs, Contributions(op, InputValues(inputs), g), |inputs|)
  {
    ghost var cs := Contributions(op, InputValues(inputs), g);
    match op
    case Add => FeedTwo(inputs, g, g, cs);
    case Sub => FeedTwo(inputs, g, -g, cs);
    case Mul => FeedProduct(inputs, g);
    case Div => FeedQuotient(inputs, g);
    case AddScalar(_) => FeedOne(inputs, g, cs);
    case SubScalar(_) => FeedOne(inputs, g, cs);
    case ScalarSub(_) => FeedOne(inputs, -g, cs);
    case MulScalar(k) => FeedOne(inputs, Times(g, k), cs);
    case DivScalar(k) =>
      QuotientTotal(g, k);
      FeedOne(inputs, g / k, cs);
    case ScalarDiv(k) => FeedScalarQuotient(inputs, g, k);
    case Negate => FeedOne(inputs, -g, cs);
    case Reciprocal => FeedInverse(inputs, g);
  }

  method FeedProduct(inputs: seq<Variable>, g: real)
    requires |inputs| == 2 && Equipped(Mul, inputs) && Truthful(inputs[0]) && Truthful(inputs[1])
    modifies Shareds(inputs)`grad
    ensures forall n | n in Shareds(inputs) ::
              n.grad == Fed(old(n.grad), n, inputs, Contributions(Mul, InputValues(inputs), g), 2)
  {
    var c0 := if inputs[0].shared.calcGrad then Times(g, inputs[1].data.value) else 0.0;
    var c1 := if inputs[1].shared.calcGrad then Times(g, inputs[0].data.value) else 0.0;
    FeedTwo(inputs, c0, c1, Contributions(Mul, InputValues(inputs), g));
  }

  method FeedQuotient(inputs: seq<Variable>, g: real)
    requires |inputs| == 2 && Equipped(Div, inputs) && Truthful(inputs[0]) && Truthful(inputs[1])
    requires inputs[1].shared.value != 0.0
    modifies Shareds(inputs)`grad
    ensures forall n | n in Shareds(inputs) ::
              n.grad == Fed(old(n.grad), n, inputs, Contributions(Div, InputValues(inputs), g), 2)
  {
    var rec := 1.0 / inputs[1].data.value;
    var c0 := Times(g, rec);
    var c1 := if inputs[1].shared.calcGrad then Times(Times(c0, -inputs[0].data.value), rec) else 0.0;
    DivContribution(g, inputs[0].shared.value, rec);
    FeedTwo(inputs, c0, c1, Contributions(Div, InputValues(inputs), g));
  }

  method FeedScalarQuotient(inputs: seq<Variable>, g: real, k: real)
    requires |inputs| == 1 && Whole(inputs[0]) && inputs[0].shared.value != 0.0
    modifies Shareds(inputs)`grad
    ensures forall n | n in Shareds(inputs) ::
              n.grad == Fed(old(n.grad), n, inputs, Contributions(ScalarDiv(k), InputValues(inputs), g), 1)
  {
    var x := inputs[0].data.value;
    ScalarDivContribution(g, k, x);
    FeedOne(inputs, Times(g, -k) / Times(x, x), Contributions(ScalarDiv(k), InputValues(inputs), g));
  }

  method FeedInverse(inputs: seq<Variable>, g: real)
    requires |inputs| == 1 && Whole(inputs[0]) && inputs[0].shared.value != 0.0
    modifies Shareds(inputs)`grad
    ensures forall n | n in Shareds(inputs) ::
              n.grad == Fed(old(n.grad), n, inputs, Contributions(Op.Reciprocal, InputValues(inputs), g), 1)
  {
    var res := 1.0 / inputs[0].data.value;
    ReciprocalContribution(g, res);
    FeedOne(inputs, Times(Times(-g, res), res), Contributions(Op.Reciprocal, InputValues(inputs), g));
  }

  lemma {:induction false} DivContribution(g: real, a: real, r: real)
    ensures Times(Times(Times(g, r), -a), r) == Times(g, Times(Times(r, -a), r))
  {
  }

  lemma {:induction false} ReciprocalContribution(g: real, r: real)
    ensures Times(Times(-g, r), r) == Times(g, Times(Times(-1.0, r), r))
  {
  }

  lemma {:induction false} ScalarDivContribution(g: real, k: real, x: real)
    requires x != 0.0
    ensures Times(x, x) != 0.0 && Times(g, -k) / Times(x, x) == Times(g, Quotient(-k, Times(x, x)))
  {
    QuotientSquare(-k, x);
    QuotientTotal(Times(g, -k), Times(x, x));
    QuotientTotal(-k, Times(x, x));
    Reassociate(g, -k, Inverse(Times(x, x)));
  }

  // ---------------------------------------------------------------- the topological sort

  /** Each node once, and the inputs of a node before it. */
  ghost predicate Listing(dag: seq<Variable>, nodes: set<SharedGrad>)
    reads nodes`inputs
  {
    && Shareds(dag) <= nodes
    && (forall i, j | 0 <= i < j < |dag| :: dag[i].shared != dag[j].shared)
    && (forall i | 0 <= i < |dag| :: Shareds(dag[i].shared.inputs) <= Shareds(dag[..i]))
  }

  /** Some node after position i takes the node at position i as an input. */
  ghost predicate Used(dag: seq<Variable>, i: nat, nodes: set<SharedGrad>)
    requires i < |dag| && Shareds(dag) <= nodes
    reads nodes`inputs
  {
    exists l :: i < l < |dag| && dag[i].shared in Shareds(dag[l].shared.inputs)
  }

  /** n can be reached from r by going from nodes to their inputs. */
  ghost predicate Reaches(r: SharedGrad, n: SharedGrad, nodes: set<SharedGrad>)
    requires r in nodes && Closed(nodes)
    reads nodes`inputs
    decreases r.rank
  {
    r == n || exists k :: 0 <= k < |r.inputs| && InputReaches(r, k, n, nodes)
  }

  ghost predicate InputReaches(r: SharedGrad, k: nat, n: SharedGrad, nodes: set<SharedGrad>)
    requires r in nodes && Closed(nodes) && k < |r.inputs|
    reads nodes`inputs
    decreases r.rank, 0
  {
    assert r.inputs[k].shared in Shareds(r.inputs);
    Reaches(r.inputs[k].shared, n, nodes)
  }

  lemma {:induction false} SharedsOfPush(dag: seq<Variable>, v: Variable)
    ensures Shareds(dag + [v]) == Shareds(dag) + {v.shared}
  {
    var more := dag + [v];
    assert more[|dag|] == v;
    forall i | 0 <= i < |dag| ensures dag[i].shared in Shareds(more) { assert more[i] == dag[i]; }
  }

  lemma {:induction false} UsedExtends(dag: seq<Variable>, more: seq<Variable>, i: nat, nodes: set<SharedGrad>)
    requires dag <= more && i < |dag| && Shareds(more) <= nodes && Shareds(dag) <= nodes && Used(dag, i, nodes)
    ensures Used(more, i, nodes)
  {
  }

  /** Listing a node after all of its inputs. */
  lemma {:induction false} PushListing(dag: seq<Variable>, v: Variable, lo: nat, nodes: set<SharedGrad>)
    requires Listing(dag, nodes) && v.shared in nodes && v.shared !in Shareds(dag) && lo <= |dag|
    requires Shareds(v.shared.inputs) <= Shareds(dag)
    requires forall i | lo <= i < |dag| :: Used(dag, i, nodes) || dag[i].shared in Shareds(v.shared.inputs)
    ensures Listing(dag + [v], nodes)
    ensures forall i | lo <= i < |dag| :: Used(dag + [v], i, nodes)
  {
    var more := dag + [v];
    SharedsOfPush(dag, v);
    forall i | 0 <= i < |more| ensures Shareds(more[i].shared.inputs) <= Shareds(more[..i]) {
      assert more[..i] == dag[..i];
      if i == |dag| { assert dag[..i] == dag; }
    }
    forall i, j | 0 <= i < j < |more| ensures more[i].shared != more[j].shared {
      if j == |dag| { assert dag[i].shared in Shareds(dag); }
    }
    forall i | lo <= i < |dag| ensures Used(more, i, nodes) {
      if Used(dag, i, nodes) {
        UsedExtends(dag, more, i, nodes);
      } else {
        assert more[i].shared in Shareds(more[|dag|].shared.inputs);
      }
    }
  }

  /** What a call of the search adds to the list. */
  ghost predicate Extension(dag: seq<Variable>, dag': seq<Variable>, v: Variable, nodes: set<SharedGrad>)
    reads nodes`inputs
  {
    && Listing(dag', nodes) && dag <= dag' && v.shared in Shareds(dag')
    && (v.shared in Shareds(dag) ==> dag' == dag)
    && (v.shared !in Shareds(dag) ==> dag' != dag && dag'[|dag'| - 1].shared == v.shared)
    && (forall i | |dag| <= i < |dag'| :: dag'[i].shared.rank <= v.shared.rank)
    && (forall i | |dag| <= i < |dag'| - 1 :: Used(dag', i, nodes))
  }

  /** What holds after the first k inputs of v have been searched. */
  ghost predicate Partway(dag: seq<Variable>, dag': seq<Variable>, v: Variable, k: nat, nodes: set<SharedGrad>)
    reads nodes`inputs, v.shared`inputs
  {
    && Listing(dag', nodes) && dag <= dag' && k <= |v.shared.inputs|
    && (forall m | 0 <= m < k :: v.shared.inputs[m].shared in Shareds(dag'))
    && (forall i | |dag| <= i < |dag'| :: dag'[i].shared.rank < v.shared.rank)
    && (forall i | |dag| <= i < |dag'| :: Used(dag', i, nodes) || dag'[i].shared in Shareds(v.shared.inputs))
  }

  lemma {:induction false} PartwayStep(dag: seq<Variable>, d1: seq<Variable>, d2: seq<Variable>, v: Variable, k: nat,
                                       nodes: set<SharedGrad>)
    requires Closed(nodes) && v.shared in nodes && Partway(dag, d1, v, k, nodes) && k < |v.shared.inputs|
    requires Extension(d1, d2, v.shared.inputs[k], nodes)
    ensures Partway(dag, d2, v, k + 1, nodes)
  {
    forall x | x in Shareds(d1) ensures x in Shareds(d2) {
      var i :| 0 <= i < |d1| && d1[i].shared == x;
      assert d2[i] == d1[i];
    }
    assert v.shared.inputs[k].shared in Shareds(v.shared.inputs);
    forall i | |dag| <= i < |d2|
      ensures d2[i].shared.rank < v.shared.rank
      ensures Used(d2, i, nodes) || d2[i].shared in Shareds(v.shared.inputs)
    {
      if i < |d1| {
        assert d2[i] == d1[i];
        if Used(d1, i, nodes) { UsedExtends(d1, d2, i, nodes); }
      }
    }
  }

  /** The depth-first search of the sort, from one variable. */
  method Recurse(v: Variable, cache: set<SharedGrad>, dag: seq<Variable>, ghost nodes: set<SharedGrad>)
    returns (cache': set<SharedGrad>, dag': seq<Variable>)
    requires Closed(nodes) && v.shared in nodes
    requires Listing(dag, nodes) && cache == Shareds(dag)
    ensures Extension(dag, dag', v, nodes) && cache' == Shareds(dag')
    decreases v.shared.rank
  {
    cache', dag' := cache, dag;
    if v.shared in cache {
      return;
    }
    var inputs := v.shared.inputs;
    for k := 0 to |inputs|
      invariant Partway(dag, dag', v, k, nodes) && cache' == Shareds(dag')
    {
      ghost var before := dag';
      assert inputs[k].shared in Shareds(inputs);
      cache', dag' := Recurse(inputs[k], cache', dag', nodes);
      PartwayStep(dag, before, dag', v, k, nodes);
    }
    FinishSearch(dag, dag', v, nodes);
    cache' := cache' + {v.shared};
    dag' := dag' + [v];
  }

  lemma {:induction false} FinishSearch(dag: seq<Variable>, dag': seq<Variable>, v: Variable, nodes: set<SharedGrad>)
    requires Closed(nodes) && v.shared in nodes && v.shared !in Shareds(dag)
    requires Partway(dag, dag', v, |v.shared.inputs|, nodes)
    ensures Extension(dag, dag' + [v], v, nodes)
    ensures Shareds(dag' + [v]) == Shareds(dag') + {v.shared}
  {
    NotYetListed(dag, dag', v);
    PushListing(dag', v, |dag|, nodes);
    SharedsOfPush(dag', v);
  }

  lemma {:induction false} NotYetListed(dag: seq<Variable>, dag': seq<Variable>, v: Variable)
    requires dag <= dag' && v.shared !in Shareds(dag)
    requires forall i | |dag| <= i < |dag'| :: dag'[i].shared.rank < v.shared.rank
    ensures v.shared !in Shareds(dag')
  {
  }

  /** The topological sort: every node that can be reached, once, with inputs first. */
  method Build(root: Variable, ghost nodes: set<SharedGrad>) returns (dag: seq<Variable>)
    requires Closed(nodes) && root.shared in nodes
    ensures dag != [] && dag[|dag| - 1].shared == root.shared && Listing(dag, nodes)
    ensures forall i | 0 <= i < |dag| - 1 :: Used(dag, i, nodes)
    ensures forall n | n in nodes :: n in Shareds(dag) <==> Reaches(root.shared, n, nodes)
  {
    var cache: set<SharedGrad>;
    cache, dag := Recurse(root, {}, [], nodes);
    forall n | n in nodes ensures n in Shareds(dag) <==> Reaches(root.shared, n, nodes) {
      if n in Shareds(dag) {
        var i :| 0 <= i < |dag| && dag[i].shared == n;
        ListedIsReachable(dag, i, root.shared, nodes);
      }
      if Reaches(root.shared, n, nodes) {
        ReachableIsListed(dag, |dag| - 1, n, nodes);
      }
    }
  }

  lemma {:induction false} ReachesTransitive(r: SharedGrad, m: SharedGrad, k: nat, nodes: set<SharedGrad>)
    requires Closed(nodes) && r in nodes && m in nodes && k < |m.inputs| && Reaches(r, m, nodes)
    ensures Reaches(r, m.inputs[k].shared, nodes)
    decreases r.rank
  {
    assert m.inputs[k].shared in Shareds(m.inputs);
    if r == m {
      assert InputReaches(r, k, m.inputs[k].shared, nodes);
    } else {
      var l :| 0 <= l < |r.inputs| && InputReaches(r, l, m, nodes);
      assert r.inputs[l].shared in Shareds(r.inputs);
      ReachesTransitive(r.inputs[l].shared, m, k, nodes);
      assert InputReaches(r, l, m.inputs[k].shared, nodes);
    }
  }

  lemma {:induction false} ListedIsReachable(dag: seq<Variable>, i: nat, r: SharedGrad, nodes: set<SharedGrad>)
    requires Closed(nodes) && Listing(dag, nodes) && i < |dag| && r in nodes && dag[|dag| - 1].shared == r
    requires forall j | 0 <= j < |dag| - 1 :: Used(dag, j, nodes)
    ensures dag[i].shared in nodes && Reaches(r, dag[i].shared, nodes)
    decreases |dag| - i
  {
    assert dag[i].shared in Shareds(dag);
    if i < |dag| - 1 {
      assert Used(dag, i, nodes);
      var l :| i < l < |dag| && dag[i].shared in Shareds(dag[l].shared.inputs);
      ListedIsReachable(dag, l, r, nodes);
      var k :| 0 <= k < |dag[l].shared.inputs| && dag[l].shared.inputs[k].shared == dag[i].shared;
      ReachesTransitive(r, dag[l].shared, k, nodes);
    }
  }

  lemma {:induction false} ReachableIsListed(dag: seq<Variable>, i: nat, n: SharedGrad, nodes: set<SharedGrad>)
    requires Closed(nodes) && Listing(dag, nodes) && i < |dag| && dag[i].shared in nodes
    requires Reaches(dag[i].shared, n, nodes)
    ensures n in Shareds(dag)
    decreases i
  {
    var r := dag[i].shared;
    if r == n {
      assert dag[i].shared in Shareds(dag);
    } else {
      var k :| 0 <= k < |r.inputs| && InputReaches(r, k, n, nodes);
      assert r.inputs[k].shared in Shareds(r.inputs);
      assert r.inputs[k].shared in Shareds(dag[..i]);
      var j :| 0 <= j < i && dag[..i][j].shared == r.inputs[k].shared;
      assert dag[j].shared in Shareds(dag);
      ReachableIsListed(dag, j, n, nodes);
    }
  }

  // ---------------------------------------------------------------- the backward pass

  /** The graph of a list of nodes, given the inputs they were built with. */
  ghost predicate Represents(dag: seq<Variable>, ins: seq<seq<Variable>>, g: Graph) {
    |dag| == |ins| == |g| && forall i | 0 <= i < |dag| :: Matches(dag, ins, g, i)
  }

  ghost predicate Matches(dag: seq<Variable>, ins: seq<seq<Variable>>, g: Graph, i: nat)
    requires |dag| == |ins| == |g| && i < |g|
  {
    && g[i].op == dag[i].shared.gradFunc && g[i].value == dag[i].shared.value && g[i].calcGrad == dag[i].shared.calcGrad
    && |g[i].inputs| == |ins[i]|
    && forall k | 0 <= k < |ins[i]| :: g[i].inputs[k] < i && dag[g[i].inputs[k]].shared == ins[i][k].shared
  }

  ghost function Position(dag: seq<Variable>, n: SharedGrad): (i: nat)
    requires n in Shareds(dag)
    ensures i < |dag| && dag[i].shared == n
  {
    var i :| 0 <= i < |dag| && dag[i].shared == n;
    i
  }

  ghost function Positions(dag: seq<Variable>, vs: seq<Variable>): (ps: seq<nat>)
    requires Shareds(vs) <= Shareds(dag)
    ensures |ps| == |vs| && forall k | 0 <= k < |ps| :: ps[k] < |dag| && dag[ps[k]].shared == vs[k].shared
  {
    if vs == [] then []
    else
      var last := vs[|vs| - 1];
      assert last.shared in Shareds(vs);
      assert Shareds(vs[..|vs| - 1]) <= Shareds(dag) by {
        forall x | x in Shareds(vs[..|vs| - 1]) ensures x in Shareds(dag) {
          var k :| 0 <= k < |vs| - 1 && vs[..|vs| - 1][k].shared == x;
          assert vs[k].shared in Shareds(vs);
        }
      }
      Positions(dag, vs[..|vs| - 1]) + [Position(dag, last.shared)]
  }

  /** A topological listing is a sound computation graph. */
  lemma {:induction false} Abstraction(dag: seq<Variable>, ins: seq<seq<Variable>>) returns (g: Graph)
    requires |ins| == |dag|
    requires forall i | 0 <= i < |dag| :: Shareds(ins[i]) <= Shareds(dag[..i]) && Keeps(dag[i].shared, ins[i])
    ensures Represents(dag, ins, g) && Sound(g)
  {
    g := [];
    while |g| < |dag|
      invariant |g| <= |dag|
      invariant forall i | 0 <= i < |g| :: Matches(dag[..|g|], ins[..|g|], g, i)
      decreases |dag| - |g|
    {
      ghost var n := dag[|g|].shared;
      ghost var more := g + [Node(n.gradFunc, Positions(dag[..|g|], ins[|g|]), n.value, n.calcGrad)];
      forall i | 0 <= i < |more| ensures Matches(dag[..|more|], ins[..|more|], more, i) {
        if i < |g| { assert Matches(dag[..|g|], ins[..|g|], g, i); }
      }
      g := more;
    }
    assert dag[..|g|] == dag && ins[..|g|] == ins;
    RepresentsSound(dag, ins, g);
  }

  lemma {:induction false} RepresentsSound(dag: seq<Variable>, ins: seq<seq<Variable>>, g: Graph)
    requires Represents(dag, ins, g) && forall i | 0 <= i < |dag| :: Keeps(dag[i].shared, ins[i])
    ensures Sound(g) && forall i | 0 <= i < |g| :: Values(g, i) == InputValues(ins[i])
  {
    assert Shaped(g) by {
      forall i | 0 <= i < |g|
        ensures |g[i].inputs| == Arity(g[i].op) && forall k | 0 <= k < |g[i].inputs| :: g[i].inputs[k] < i
      {
        assert Matches(dag, ins, g, i) && Keeps(dag[i].shared, ins[i]);
      }
    }
    forall i | 0 <= i < |g| ensures Values(g, i) == InputValues(ins[i]) && Consistent(g, i) {
      assert Matches(dag, ins, g, i) && Keeps(dag[i].shared, ins[i]);
      forall k | 0 <= k < |ins[i]| ensures Values(g, i)[k] == InputValues(ins[i])[k] {
        assert Matches(dag, ins, g, g[i].inputs[k]);
      }
    }
  }

  /** What the list looked like when the backward pass began. */
  datatype Before = Before(ins: seq<seq<Variable>>, hooks: seq<Option<real -> real>>, fired: seq<seq<real>>)

  /** The nodes below i still hold what has been accumulated in them so far. */
  ghost predicate Pending(dag: seq<Variable>, b: Before, acc: seq<Option<real>>, i: nat)
    requires |dag| == |b.ins| == |b.hooks| == |b.fired| == |acc| && i <= |dag|
    reads Shareds(dag)
  {
    forall p | 0 <= p < i :: InShareds(dag, p) &&
      dag[p].shared.grad == acc[p] && dag[p].shared.inputs == b.ins[p]
      && dag[p].shared.hook == b.hooks[p] && dag[p].shared.fired == b.fired[p]
  }

  /** True; it lets the frame of a predicate over a list see its nodes. */
  ghost predicate InShareds(dag: seq<Variable>, p: nat)
    requires p < |dag|
    ensures dag[p].shared in Shareds(dag)
  {
    true
  }

  function Hooked(hook: Option<real -> real>, x: real): real {
    match hook
    case None => x
    case Some(h) => h(x)
  }

  /** A node that had its turn: its gradient is complete, and its hook has seen it once. */
  ghost predicate Done(n: SharedGrad, total: real, ins: seq<Variable>, hook: Option<real -> real>, fired: seq<real>,
                       retainGraph: bool)
    reads n
  {
    && n.inputs == (if retainGraph then ins else []) && n.hook == hook
    && n.grad == (if n.calcGrad then Some(Hooked(hook, total)) else None)
    && n.fired == (if hook.Some? then fired + [total] else fired)
  }

  ghost predicate Singly(dag: seq<Variable>) {
    forall i, j | 0 <= i < j < |dag| :: dag[i].shared != dag[j].shared
  }

  /** Feeding the shared objects is feeding the accumulators of their positions. */
  lemma {:induction false} FedIsFeed(dag: seq<Variable>, ins: seq<seq<Variable>>, g: Graph, acc: seq<Option<real>>,
                                     q: nat, x: real, k: nat, p: nat)
    requires Represents(dag, ins, g) && Sound(g) && Singly(dag) && D.Shaped(Slopes(g)) && |acc| == |g|
    requires p < q < |g| && Keeps(dag[q].shared, ins[q]) && Values(g, q) == InputValues(ins[q])
    requires k <= |ins[q]|
    ensures Matches(dag, ins, g, q)
    ensures Fed(acc[p], dag[p].shared, ins[q], Contributions(dag[q].shared.gradFunc, InputValues(ins[q]), x), k)
         == D.Feed(Slopes(g), acc, q, x, k)[p]
    decreases k
  {
    assert Matches(dag, ins, g, q);
    if k > 0 {
      FedIsFeed(dag, ins, g, acc, q, x, k - 1, p);
      var i := g[q].inputs[k - 1];
      assert dag[i].shared == ins[q][k - 1].shared;
      assert Matches(dag, ins, g, i);
      assert Slopes(g)[q].slopes == Partials(g[q].op, Values(g, q));
    }
  }

  /** One turn of the backward loop, for the node at position q. */
  method Turn(dag: seq<Variable>, q: nat, retainGraph: bool, ghost b: Before, ghost g: Graph,
              ghost acc: seq<Option<real>>, ghost total: real)
    returns (ok: bool)
    requires Represents(dag, b.ins, g) && Sound(g) && Singly(dag) && D.Shaped(Slopes(g)) && q < |dag|
    requires |b.hooks| == |b.fired| == |acc| == |dag|
    requires Keeps(dag[q].shared, b.ins[q]) && Values(g, q) == InputValues(b.ins[q])
    requires Shareds(b.ins[q]) <= Shareds(dag[..q])
    requires Pending(dag, b, acc, q + 1)
    requires acc[q] == if dag[q].shared.calcGrad then Some(total) else None
    requires b.hooks[q].Some? ==> dag[q].shared.calcGrad
    modifies dag[q].shared, Shareds(b.ins[q])`grad
    ensures ok && Matches(dag, b.ins, g, q)
    ensures Done(dag[q].shared, total, b.ins[q], b.hooks[q], b.fired[q], retainGraph)
    ensures Pending(dag, b, D.Feed(Slopes(g), acc, q, D.Amount(acc[q]), |b.ins[q]|), q)
  {
    assert Matches(dag, b.ins, g, q);
    ghost var fed := D.Feed(Slopes(g), acc, q, D.Amount(acc[q]), |b.ins[q]|);
    var n := dag[q].shared;
    assert n.grad == acc[q] && n.inputs == b.ins[q] && n.hook == b.hooks[q] && n.fired == b.fired[q];
    ok := n.CalcGradInputs(retainGraph);
    forall p | 0 <= p < q ensures dag[p].shared.grad == fed[p] {
      FedIsFeed(dag, b.ins, g, acc, q, D.Amount(acc[q]), |b.ins[q]|, p);
      if dag[p].shared !in Shareds(b.ins[q]) {
        NotFed(acc[p], dag[p].shared, b.ins[q], Contributions(n.gradFunc, InputValues(b.ins[q]), D.Amount(acc[q])),
            |b.ins[q]|);
      }
    }
    n.ApplyGradHook();
  }

  lemma {:induction false} NotFed(start: Option<real>, n: SharedGrad, inputs: seq<Variable>, cs: seq<real>, k: nat)
    requires k <= |inputs| == |cs| && n !in Shareds(inputs)
    ensures Fed(start, n, inputs, cs, k) == start
    decreases k
  {
    if k > 0 {
      assert inputs[k - 1].shared in Shareds(inputs);
      NotFed(start, n, inputs, cs, k - 1);
    }
  }

  ghost function Snapshot(dag: seq<Variable>): (b: Before)
    reads Shareds(dag)`inputs, Shareds(dag)`hook, Shareds(dag)`fired
    ensures |b.ins| == |b.hooks| == |b.fired| == |dag|
    ensures forall p | 0 <= p < |dag| :: InShareds(dag, p) &&
              b.ins[p] == dag[p].shared.inputs && b.hooks[p] == dag[p].shared.hook && b.fired[p] == dag[p].shared.fired
  {
    if dag == [] then Before([], [], [])
    else
      var front, n := dag[..|dag| - 1], dag[|dag| - 1].shared;
      assert InShareds(dag, |dag| - 1);
      assert Shareds(front) <= Shareds(dag) by {
        forall k | 0 <= k < |front| ensures front[k].shared in Shareds(dag) { assert InShareds(dag, k); }
      }
      var b := Snapshot(front);
      Before(b.ins + [n.inputs], b.hooks + [n.hook], b.fired + [n.fired])
  }

  /** The nodes from i on have had their turn. */
  ghost predicate Settled(dag: seq<Variable>, b: Before, g: Graph, x: real, i: nat, retainGraph: bool)
    requires |dag| == |b.ins| == |b.hooks| == |b.fired| == |g| && Sound(g)
    reads Shareds(dag)
  {
    forall p | i <= p < |dag| :: InShareds(dag, p) &&
      Done(dag[p].shared, Times(x, Tangent(g, |g| - 1, p)), b.ins[p], b.hooks[p], b.fired[p], retainGraph)
  }

  /** The consumers recorded by the sort are edges of the graph. */
  lemma {:induction false} UsedInGraph(dag: seq<Variable>, ins: seq<seq<Variable>>, g: Graph, p: nat, l: nat)
    requires Represents(dag, ins, g) && Singly(dag) && Sound(g) && D.Shaped(Slopes(g))
    requires p < l < |dag| && dag[p].shared in Shareds(ins[l])
    ensures D.UsedAbove(Slopes(g), p)
  {
    assert Matches(dag, ins, g, l);
    var k :| 0 <= k < |ins[l]| && ins[l][k].shared == dag[p].shared;
    assert dag[g[l].inputs[k]].shared == dag[p].shared;
    assert g[l].inputs[k] == p;
    assert Slopes(g)[l].inputs[k] == p;
  }

  /** The listed nodes, what they looked like before the pass, and the graph they make. */
  ghost predicate Linked(dag: seq<Variable>, b: Before, g: Graph) {
    && dag != [] && |b.ins| == |b.hooks| == |b.fired| == |dag|
    && Represents(dag, b.ins, g) && Sound(g) && Singly(dag) && D.Shaped(Slopes(g))
    && (forall i | 0 <= i < |dag| :: Placed(dag, b, g, i))
    && (forall i | 0 <= i < |dag| - 1 :: D.UsedAbove(Slopes(g), i))
  }

  ghost predicate Placed(dag: seq<Variable>, b: Before, g: Graph, i: nat)
    requires |b.ins| == |b.hooks| == |dag| == |g| && i < |dag| && Shaped(g)
  {
    && Shareds(b.ins[i]) <= Shareds(dag[..i]) && Keeps(dag[i].shared, b.ins[i])
    && Values(g, i) == InputValues(b.ins[i])
    && (b.hooks[i].Some? ==> dag[i].shared.calcGrad)
  }

  /** The accumulators when only the root has been given a gradient. */
  ghost function Initial(dag: seq<Variable>, x: real): (acc: seq<Option<real>>)
    requires dag != []
    ensures |acc| == |dag|
  {
    var last := |dag| - 1;
    seq(|dag|, p requires 0 <= p < |dag| => if p == last && dag[last].shared.calcGrad then Some(x) else None)
  }

  /** The state of the loop before the node at position i - 1 has its turn. */
  ghost predicate Midway(dag: seq<Variable>, b: Before, g: Graph, acc: seq<Option<real>>, x: real, i: nat,
      retainGraph: bool)
    requires Linked(dag, b, g)
    reads Shareds(dag)
  {
    && i <= |dag| == |acc|
    && Pending(dag, b, acc, i) && Settled(dag, b, g, x, i, retainGraph)
    && D.Balanced(Slopes(g), acc, i, x) && D.Available(Slopes(g), acc, i)
  }

  /** The loop of the backward pass, from the last node to the first. */
  method Sweep(dag: seq<Variable>, x: real, retainGraph: bool, ghost b: Before, ghost g: Graph) returns (ok: bool)
    requires Linked(dag, b, g) && Pending(dag, b, Initial(dag, x), |dag|)
    modifies Shareds(dag)
    ensures ok && Settled(dag, b, g, x, 0, retainGraph)
  {
    ghost var acc := Initial(dag, x);
    assert Matches(dag, b.ins, g, |dag| - 1);
    D.SweepStart(Slopes(g), acc, x);
    ok := true;
    var i := |dag|;
    while i > 0
      invariant ok && 0 <= i <= |dag| && Midway(dag, b, g, acc, x, i, retainGraph)
    {
      i := i - 1;
      ok, acc := SweepOne(dag, x, i, retainGraph, b, g, acc);
    }
  }

  method SweepOne(dag: seq<Variable>, x: real, i: nat, retainGraph: bool, ghost b: Before, ghost g: Graph,
                  ghost acc: seq<Option<real>>)
    returns (ok: bool, ghost fed: seq<Option<real>>)
    requires Linked(dag, b, g) && i < |dag| && Midway(dag, b, g, acc, x, i + 1, retainGraph)
    modifies Shareds(dag)
    ensures ok && Midway(dag, b, g, fed, x, i, retainGraph)
  {
    fed := TurnReady(dag, b, g, acc, x, i);
    assert InShareds(dag, i) && Shareds(b.ins[i]) <= Shareds(dag);
    assert forall p | 0 <= p < |dag| :: InShareds(dag, p);
    ok := Turn(dag, i, retainGraph, b, g, acc, Times(x, Tangent(g, |g| - 1, i)));
  }

  /** The node at position i, seen by the sweep: its gradient is complete, and feeding its inputs keeps the balance. */
  lemma {:induction false} TurnReady(dag: seq<Variable>, b: Before, g: Graph, acc: seq<Option<real>>, x: real, i: nat)
    returns (fed: seq<Option<real>>)
    requires Linked(dag, b, g) && i < |dag| == |acc|
    requires D.Balanced(Slopes(g), acc, i + 1, x) && D.Available(Slopes(g), acc, i + 1)
    ensures Matches(dag, b.ins, g, i) && Placed(dag, b, g, i)
    ensures acc[i] == if dag[i].shared.calcGrad then Some(Times(x, Tangent(g, |g| - 1, i))) else None
    ensures fed == D.Feed(Slopes(g), acc, i, D.Amount(acc[i]), |b.ins[i]|)
    ensures D.Balanced(Slopes(g), fed, i, x) && D.Available(Slopes(g), fed, i)
    ensures Shareds(b.ins[i]) <= Shareds(dag)
    ensures forall p | i <= p < |dag| :: dag[p].shared !in Shareds(b.ins[i])
    ensures forall p | i < p < |dag| :: dag[p].shared != dag[i].shared
  {
    assert Placed(dag, b, g, i) && Matches(dag, b.ins, g, i);
    fed := TurnFlow(g, acc, x, i);
    InputsBelow(dag, b.ins[i], i);
  }

  lemma {:induction false} SlopeAt(g: Graph, i: nat)
    requires Sound(g) && D.Shaped(Slopes(g)) && i < |g|
    ensures Slopes(g)[i].live == g[i].calcGrad && |Slopes(g)[i].inputs| == |g[i].inputs|
    ensures D.Flow(Slopes(g), |g| - 1, i) == Tangent(g, |g| - 1, i)
  {
    TangentIsFlow(g, |g| - 1, i);
  }

  lemma {:induction false} TurnFlow(g: Graph, acc: seq<Option<real>>, x: real, i: nat) returns (fed: seq<Option<real>>)
    requires Sound(g) && D.Shaped(Slopes(g)) && i < |g| == |acc|
    requires D.Balanced(Slopes(g), acc, i + 1, x) && D.Available(Slopes(g), acc, i + 1)
    requires i == |g| - 1 || D.UsedAbove(Slopes(g), i)
    ensures acc[i] == if g[i].calcGrad then Some(Times(x, Tangent(g, |g| - 1, i))) else None
    ensures fed == D.Feed(Slopes(g), acc, i, D.Amount(acc[i]), |g[i].inputs|)
    ensures D.Balanced(Slopes(g), fed, i, x) && D.Available(Slopes(g), fed, i)
  {
    SlopeAt(g, i);
    fed := TurnOver(g, Slopes(g), acc, x, i);
  }

  lemma {:induction false} TurnOver(g: Graph, d: D.Dag, acc: seq<Option<real>>, x: real, i: nat)
    returns (fed: seq<Option<real>>)
    requires Sound(g) && D.Shaped(d) && i < |g| == |acc| == |d|
    requires d[i].live == g[i].calcGrad && |d[i].inputs| == |g[i].inputs|
    requires D.Flow(d, |d| - 1, i) == Tangent(g, |g| - 1, i)
    requires D.Balanced(d, acc, i + 1, x) && D.Available(d, acc, i + 1)
    requires i == |g| - 1 || D.UsedAbove(d, i)
    ensures acc[i] == if g[i].calcGrad then Some(Times(x, Tangent(g, |g| - 1, i))) else None
    ensures fed == D.Feed(d, acc, i, D.Amount(acc[i]), |g[i].inputs|)
    ensures D.Balanced(d, fed, i, x) && D.Available(d, fed, i)
  {
    D.SweepTurn(d, acc, i, x);
    fed := D.Feed(d, acc, i, D.Amount(acc[i]), |g[i].inputs|);
  }

  /** The inputs of a node are listed below it, so a turn leaves the nodes above alone. */
  lemma {:induction false} InputsBelow(dag: seq<Variable>, vs: seq<Variable>, i: nat)
    requires Singly(dag) && i < |dag| && Shareds(vs) <= Shareds(dag[..i])
    ensures Shareds(vs) <= Shareds(dag)
    ensures forall p | i <= p < |dag| :: dag[p].shared !in Shareds(vs)
  {
  }

  lemma {:induction false} SnapshotKept(dag: seq<Variable>, nodes: set<SharedGrad>)
    requires Closed(nodes) && Listing(dag, nodes)
    requires forall n | n in nodes :: n.hook.Some? ==> n.calcGrad
    ensures var b := Snapshot(dag); forall i | 0 <= i < |dag| ::
      && Shareds(b.ins[i]) <= Shareds(dag[..i]) && Keeps(dag[i].shared, b.ins[i])
      && (b.hooks[i].Some? ==> dag[i].shared.calcGrad)
  {
    forall i | 0 <= i < |dag| ensures InShareds(dag, i) {
    }
  }

  /** The sort and the heap it was run on give a linked graph. */
  lemma {:induction false} Link(dag: seq<Variable>, nodes: set<SharedGrad>) returns (g: Graph)
    requires Closed(nodes) && dag != [] && Listing(dag, nodes)
    requires forall i | 0 <= i < |dag| - 1 :: Used(dag, i, nodes)
    requires forall n | n in nodes :: n.hook.Some? ==> n.calcGrad
    ensures Linked(dag, Snapshot(dag), g)
  {
    var b := Snapshot(dag);
    SnapshotKept(dag, nodes);
    g := Abstraction(dag, b.ins);
    RepresentsSound(dag, b.ins, g);
    SlopesShaped(g);
    forall i | 0 <= i < |dag| - 1 ensures D.UsedAbove(Slopes(g), i) {
      assert Used(dag, i, nodes);
      var l :| i < l < |dag| && dag[i].shared in Shareds(dag[l].shared.inputs);
      assert InShareds(dag, l);
      UsedInGraph(dag, b.ins, g, i, l);
    }
  }

  // ---------------------------------------------------------------- the tangent on the nodes themselves

  /** Forward-mode differentiation of r with respect to n, on the nodes. */
  ghost function Slope(r: SharedGrad, n: SharedGrad, nodes: set<SharedGrad>): real
    requires r in nodes && Closed(nodes)
    reads nodes`inputs
    decreases r.rank, |r.inputs| + 1
  {
    if r == n then 1.0 else Dual(r.gradFunc, InputValues(r.inputs), InputSlopes(r, n, nodes, |r.inputs|))
  }

  /** The tangents of the first m inputs of r. */
  ghost function InputSlopes(r: SharedGrad, n: SharedGrad, nodes: set<SharedGrad>, m: nat): (ts: seq<real>)
    requires r in nodes && Closed(nodes) && m <= |r.inputs|
    reads nodes`inputs
    ensures |ts| == m
    decreases r.rank, m
  {
    if m == 0 then []
    else
      assert r.inputs[m - 1].shared in Shareds(r.inputs);
      InputSlopes(r, n, nodes, m - 1) + [Slope(r.inputs[m - 1].shared, n, nodes)]
  }

  lemma {:induction false} InputSlopeAt(r: SharedGrad, n: SharedGrad, nodes: set<SharedGrad>, m: nat, k: nat)
    requires r in nodes && Closed(nodes) && k < m <= |r.inputs|
    ensures r.inputs[k].shared in nodes && InputSlopes(r, n, nodes, m)[k] == Slope(r.inputs[k].shared, n, nodes)
    decreases m
  {
    assert r.inputs[k].shared in Shareds(r.inputs);
    if k < m - 1 {
      InputSlopeAt(r, n, nodes, m - 1, k);
    }
  }

  /** The tangents of a graph do not depend on how its nodes are listed. */
  lemma {:induction false} SlopeIsTangent(dag: seq<Variable>, g: Graph, nodes: set<SharedGrad>, i: nat, j: nat)
    requires Closed(nodes) && Listing(dag, nodes) && Linked(dag, Snapshot(dag), g) && i < |dag| && j < |dag|
    ensures dag[i].shared in nodes && Tangent(g, i, j) == Slope(dag[i].shared, dag[j].shared, nodes)
    decreases i
  {
    var b, r, n := Snapshot(dag), dag[i].shared, dag[j].shared;
    assert InShareds(dag, i) && InShareds(dag, j);
    if i != j {
      assert Matches(dag, b.ins, g, i) && Placed(dag, b, g, i);
      assert r != n by {
        if i < j { assert dag[i].shared != dag[j].shared; } else { assert dag[j].shared != dag[i].shared; }
      }
      var ts, us := Tangents(g, i, j), InputSlopes(r, n, nodes, |r.inputs|);
      forall k | 0 <= k < |ts| ensures ts[k] == us[k] {
        SlopeIsTangent(dag, g, nodes, g[i].inputs[k], j);
        InputSlopeAt(r, n, nodes, |r.inputs|, k);
      }
      assert ts == us;
      assert Tangent(g, i, j) == Dual(g[i].op, Values(g, i), ts);
    }
  }

  lemma {:induction false} ListedTangents(dag: seq<Variable>, g: Graph, nodes: set<SharedGrad>)
    requires Closed(nodes) && Listing(dag, nodes) && Linked(dag, Snapshot(dag), g)
    ensures dag[|dag| - 1].shared in nodes
    ensures forall p | 0 <= p < |dag| :: Tangent(g, |g| - 1, p) == Slope(dag[|dag| - 1].shared, dag[p].shared, nodes)
  {
    forall p | 0 <= p < |dag|
      ensures dag[|dag| - 1].shared in nodes
      ensures Tangent(g, |g| - 1, p) == Slope(dag[|dag| - 1].shared, dag[p].shared, nodes)
    {
      SlopeIsTangent(dag, g, nodes, |dag| - 1, p);
    }
  }

  lemma {:induction false} OnlyRootHasGradient(dag: seq<Variable>, x: real, nodes: set<SharedGrad>)
    requires dag != [] && Shareds(dag) <= nodes && Singly(dag)
    requires var root := dag[|dag| - 1].shared;
      && (root in nodes ==> root.grad == if root.calcGrad then Some(x) else None)
      && forall n | n in nodes && n != root :: n.grad == None
    ensures Pending(dag, Snapshot(dag), Initial(dag, x), |dag|)
  {
    forall p | 0 <= p < |dag| ensures InShareds(dag, p) && dag[p].shared.grad == Initial(dag, x)[p] {
      assert InShareds(dag, p);
    }
  }

  /** The start of the backward pass: the root gets its gradient and the reachable nodes are listed. */
  method Prepare(root: Variable, x: real, ghost nodes: set<SharedGrad>) returns (dag: seq<Variable>, ghost g: Graph)
    requires Closed(nodes) && root.shared in nodes
    requires forall n | n in nodes :: n.grad == None && (n.hook.Some? ==> n.calcGrad)
    modifies root.shared`grad
    ensures dag != [] && dag[|dag| - 1].shared == root.shared && Shareds(dag) <= nodes
    ensures forall n | n in nodes :: n in Shareds(dag) <==> Reaches(root.shared, n, nodes)
    ensures Linked(dag, Snapshot(dag), g) && Pending(dag, Snapshot(dag), Initial(dag, x), |dag|)
    ensures forall p | 0 <= p < |dag| :: Tangent(g, |g| - 1, p) == Slope(root.shared, dag[p].shared, nodes)
  {
    root.shared.AddGrad(x);
    dag := Build(root, nodes);
    g := Link(dag, nodes);
    OnlyRootHasGradient(dag, x, nodes);
    ListedTangents(dag, g, nodes);
  }

  /** The backward pass, with the listing it makes and the graph of the nodes listed. */
  method BackwardListed(root: Variable, x: real, retainGraph: bool, ghost nodes: set<SharedGrad>)
    returns (ok: bool, ghost dag: seq<Variable>, ghost b: Before, ghost g: Graph)
    requires Closed(nodes) && root.shared in nodes
    requires forall n | n in nodes :: n.grad == None && (n.hook.Some? ==> n.calcGrad)
    modifies nodes
    ensures ok && dag != [] && dag[|dag| - 1].shared == root.shared && Shareds(dag) <= nodes
    ensures forall n | n in nodes :: n in Shareds(dag) <==> old(Reaches(root.shared, n, nodes))
    ensures |b.ins| == |b.hooks| == |b.fired| == |dag|
    ensures forall n, p | n in nodes && 0 <= p < |dag| && dag[p].shared == n ::
              b.ins[p] == old(n.inputs) && b.hooks[p] == old(n.hook) && b.fired[p] == old(n.fired)
    ensures Linked(dag, b, g) && Settled(dag, b, g, x, 0, retainGraph)
    ensures forall n, p | n in nodes && 0 <= p < |dag| && dag[p].shared == n ::
              Tangent(g, |g| - 1, p) == old(Slope(root.shared, n, nodes))
    ensures forall n | n in nodes && n !in Shareds(dag) :: unchanged(n)
  {
    var list;
    list, g := Prepare(root, x, nodes);
    dag, b := list, Snapshot(list);
    assert InShareds(dag, |dag| - 1);
    ok := Sweep(list, x, retainGraph, b, g);
  }

  /**
   The backward pass from gradient-free nodes. Every differentiated node that can be reached ends
   up with x times the tangent of the root with respect to it, passed through its hook, and the
   hook has been given that value exactly once. All others are unchanged, and whether the graph is
   retained makes no difference to any gradient.
   */
  method Backward(root: Variable, x: real, retainGraph: bool, ghost nodes: set<SharedGrad>) returns (ok: bool)
    requires Closed(nodes) && root.shared in nodes
    requires forall n | n in nodes :: n.grad == None && (n.hook.Some? ==> n.calcGrad)
    modifies nodes
    ensures ok
    ensures forall n | n in nodes && old(Reaches(root.shared, n, nodes)) ::
      Done(n, Times(x, old(Slope(root.shared, n, nodes))), old(n.inputs), old(n.hook), old(n.fired), retainGraph)
    ensures forall n | n in nodes && !old(Reaches(root.shared, n, nodes)) :: unchanged(n)
  {
    ghost var dag, b, g;
    ok, dag, b, g := BackwardListed(root, x, retainGraph, nodes);
    forall n | n in nodes && n in Shareds(dag)
      ensures Done(n, Times(x, old(Slope(root.shared, n, nodes))), old(n.inputs), old(n.hook), old(n.fired),
          retainGraph)
    {
      var p: nat := Position(dag, n);
      assert InShareds(dag, p);
    }
  }

  /** What ends up in a node is x times the derivative, the sum over all routes of products of local derivatives. */
  lemma {:induction false} GradientIsDerivative(dag: seq<Variable>, b: Before, g: Graph, x: real, retainGraph: bool,
      p: nat)
    requires Linked(dag, b, g) && Settled(dag, b, g, x, 0, retainGraph) && p < |dag| && dag[p].shared.calcGrad
    ensures var last, d := |g| - 1, Tangent(g, |g| - 1, p);
      && HasDerivative(Response(g, last, p), d)
      && d == D.Total(Slopes(g), last, D.Routes(Slopes(g), last, p))
      && dag[p].shared.grad == Some(Hooked(b.hooks[p], Times(x, d)))
  {
    assert InShareds(dag, p);
    RouteSumIsDerivative(g, |g| - 1, p);
  }
}
