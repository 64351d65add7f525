/**
 Computation graphs of the arithmetic operators, as values: what a node computes, its
 derivative by forward-mode differentiation, by summing over paths, and by limits.

 Nodes are numbered so that the inputs of a node come before it.
 */
module Graph {
  import opened Calculus
  import opened Reals
  import D = Dag

  datatype Op =
    | Constant
    | Add | AddScalar(k: real)
    | Sub | SubScalar(k: real) | ScalarSub(k: real)
    | Mul | MulScalar(k: real)
    | Div | DivScalar(k: real) | ScalarDiv(k: real)
    | Negate | Reciprocal

  function Arity(op: Op): nat {
    match op
    case Constant => 0
    case Add => 2
    case Sub => 2
    case Mul => 2
    case Div => 2
    case _ => 1
  }

  /** Division, with zero standing in for the undefined cases. */
  function Quotient(a: real, b: real): real {
    if b == 0.0 then 0.0 else a / b
  }

  function Inverse(b: real): real {
    Quotient(1.0, b)
  }

  function Apply(op: Op, xs: seq<real>): real
    requires |xs| == Arity(op)
  {
    match op
    case Constant => 0.0
    case Add => xs[0] + xs[1]
    case AddScalar(k) => xs[0] + k
    case Sub => xs[0] - xs[1]
    case SubScalar(k) => xs[0] - k
    case ScalarSub(k) => k - xs[0]
    case Mul => Times(xs[0], xs[1])
    case MulScalar(k) => Times(xs[0], k)
    case Div => Quotient(xs[0], xs[1])
    case DivScalar(k) => Quotient(xs[0], k)
    case ScalarDiv(k) => Quotient(k, xs[0])
    case Negate => 0.0 - xs[0]
    case Reciprocal => Inverse(xs[0])
  }

  /** Divisors are not zero. */
  predicate Defined(op: Op, xs: seq<real>)
    requires |xs| == Arity(op)
  {
    match op
    case Div => xs[1] != 0.0
    case DivScalar(k) => k != 0.0
    case ScalarDiv(_) => xs[0] != 0.0
    case Reciprocal => xs[0] != 0.0
    case _ => true
  }

  /** The derivative of an operator with respect to its k-th input. */
  function Partial(op: Op, xs: seq<real>, k: nat): real
    requires |xs| == Arity(op) && k < |xs|
  {
    match op
    case Add => 1.0
    case AddScalar(_) => 1.0
    case Sub => if k == 0 then 1.0 else -1.0
    case SubScalar(_) => 1.0
    case ScalarSub(_) => -1.0
    case Mul => if k == 0 then xs[1] else xs[0]
    case MulScalar(c) => c
    case Div => if k == 0 then Inverse(xs[1]) else Times(Times(Inverse(xs[1]), -xs[0]), Inverse(xs[1]))
    case DivScalar(c) => Inverse(c)
    case ScalarDiv(c) => Quotient(-c, Times(xs[0], xs[0]))
    case Negate => -1.0
    case Reciprocal => Times(Times(-1.0, Inverse(xs[0])), Inverse(xs[0]))
  }

  function Partials(op: Op, xs: seq<real>): (ps: seq<real>)
    requires |xs| == Arity(op)
    ensures |ps| == |xs|
  {
    seq(|xs|, k requires 0 <= k < |xs| => Partial(op, xs, k))
  }

  datatype Node = Node(op: Op, inputs: seq<nat>, value: real, calcGrad: bool)
  type Graph = seq<Node>

  /** Every node has the inputs its operator takes, and they come before it. */
  ghost predicate Shaped(g: Graph) {
    forall i | 0 <= i < |g| ::
      |g[i].inputs| == Arity(g[i].op) && forall k | 0 <= k < |g[i].inputs| :: g[i].inputs[k] < i
  }

  ghost function Values(g: Graph, i: nat): (xs: seq<real>)
    requires Shaped(g) && i < |g|
    ensures |xs| == |g[i].inputs|
  {
    seq(|g[i].inputs|, k requires 0 <= k < |g[i].inputs| => g[g[i].inputs[k]].value)
  }

  /** An operator node holds the value its operator computes, and is differentiated. */
  ghost predicate Consistent(g: Graph, i: nat)
    requires Shaped(g) && i < |g|
  {
    g[i].op != Constant ==>
      g[i].calcGrad && Defined(g[i].op, Values(g, i)) && g[i].value == Apply(g[i].op, Values(g, i))
  }

  ghost predicate Sound(g: Graph) {
    Shaped(g) && forall i | 0 <= i < |g| :: Consistent(g, i)
  }

  // ---------------------------------------------------------------- forward mode

  /** Arithmetic on dual numbers: the tangent of an operator from the values and tangents of its inputs. */
  function Dual(op: Op, xs: seq<real>, ts: seq<real>): real
    requires |xs| == |ts| == Arity(op)
  {
    match op
    case Constant => 0.0
    case Add => ts[0] + ts[1]
    case AddScalar(_) => ts[0]
    case Sub => ts[0] - ts[1]
    case SubScalar(_) => ts[0]
    case ScalarSub(_) => -ts[0]
    case Mul => Times(ts[0], xs[1]) + Times(xs[0], ts[1])
    case MulScalar(k) => Times(ts[0], k)
    case Div => Quotient(Times(ts[0], xs[1]) - Times(xs[0], ts[1]), Times(xs[1], xs[1]))
    case DivScalar(k) => Quotient(ts[0], k)
    case ScalarDiv(k) => Quotient(-Times(k, ts[0]), Times(xs[0], xs[0]))
    case Negate => -ts[0]
    case Reciprocal => Quotient(-ts[0], Times(xs[0], xs[0]))
  }

  /** The tangent of node i when node j is the variable: forward-mode differentiation. */
  ghost function Tangent(g: Graph, i: nat, j: nat): real
    requires Shaped(g) && i < |g|
  {
    if i == j then 1.0
    else Dual(g[i].op, Values(g, i),
              seq(|g[i].inputs|, k requires 0 <= k < |g[i].inputs| => Tangent(g, g[i].inputs[k], j)))
  }

  ghost function Tangents(g: Graph, i: nat, j: nat): (ts: seq<real>)
    requires Shaped(g) && i < |g|
    ensures |ts| == |g[i].inputs|
  {
    seq(|g[i].inputs|, k requires 0 <= k < |g[i].inputs| => Tangent(g, g[i].inputs[k], j))
  }

  /** Forward mode follows the chain rule: local derivatives times the tangents of the inputs. */
  lemma {:induction false} TangentIsChain(g: Graph, i: nat, j: nat)
    requires Shaped(g) && i < |g| && i != j && Consistent(g, i)
    ensures Tangent(g, i, j) == D.Dot(Partials(g[i].op, Values(g, i)), Tangents(g, i, j))
  {
    assert Tangent(g, i, j) == Dual(g[i].op, Values(g, i), Tangents(g, i, j));
    DualIsDot(g[i].op, Values(g, i), Tangents(g, i, j));
  }

  lemma {:induction false} DualIsDot(op: Op, xs: seq<real>, ts: seq<real>)
    requires |xs| == |ts| == Arity(op) && Defined(op, xs)
    ensures Dual(op, xs, ts) == D.Dot(Partials(op, xs), ts)
  {
    if |xs| == 1 {
      UnaryDot(Partials(op, xs), ts);
      DualUnary(op, xs, ts);
    } else if |xs| == 2 {
      BinaryDot(Partials(op, xs), ts);
      DualBinary(op, xs, ts);
    }
  }

  lemma {:induction false} UnaryDot(ps: seq<real>, ts: seq<real>)
    requires |ps| == |ts| == 1
    ensures D.Dot(ps, ts) == Times(ps[0], ts[0])
  {
    assert D.Dot(ps[..0], ts[..0]) == 0.0;
  }

  lemma {:induction false} BinaryDot(ps: seq<real>, ts: seq<real>)
    requires |ps| == |ts| == 2
    ensures D.Dot(ps, ts) == Times(ps[0], ts[0]) + Times(ps[1], ts[1])
  {
    UnaryDot(ps[..1], ts[..1]);
  }

  lemma {:induction false} DualUnary(op: Op, xs: seq<real>, ts: seq<real>)
    requires |xs| == |ts| == Arity(op) == 1 && Defined(op, xs)
    ensures Dual(op, xs, ts) == Times(Partial(op, xs, 0), ts[0])
  {
  }

  lemma {:induction false} DualBinary(op: Op, xs: seq<real>, ts: seq<real>)
    requires |xs| == |ts| == Arity(op) == 2 && Defined(op, xs)
    ensures Dual(op, xs, ts) == Times(Partial(op, xs, 0), ts[0]) + Times(Partial(op, xs, 1), ts[1])
  {
  }

  /** The weighted graph of local derivatives. */
  ghost function Slopes(g: Graph): (d: D.Dag)
    requires Shaped(g)
    ensures |d| == |g|
  {
    seq(|g|, i requires 0 <= i < |g| => D.Vertex(g[i].inputs, Partials(g[i].op, Values(g, i)), g[i].calcGrad))
  }

  lemma {:induction false} SlopesShaped(g: Graph)
    requires Sound(g)
    ensures D.Shaped(Slopes(g))
  {
    var d := Slopes(g);
    forall i | 0 <= i < |d|
      ensures |d[i].inputs| == |d[i].slopes| && (!d[i].live ==> d[i].inputs == [])
      ensures forall k | 0 <= k < |d[i].inputs| :: d[i].inputs[k] < i
    {
      assert Consistent(g, i);
    }
  }

  /** Forward mode computes the flow along the local derivatives. */
  lemma {:induction false} TangentIsFlow(g: Graph, i: nat, j: nat)
    requires Sound(g) && i < |g|
    ensures D.Shaped(Slopes(g)) && Tangent(g, i, j) == D.Flow(Slopes(g), i, j)
    decreases i
  {
    SlopesShaped(g);
    var d := Slopes(g);
    if i != j {
      forall k | 0 <= k < |g[i].inputs| ensures Tangents(g, i, j)[k] == D.Flows(d, i, j)[k] {
        TangentIsFlow(g, g[i].inputs[k], j);
      }
      assert Tangents(g, i, j) == D.Flows(d, i, j);
      assert Consistent(g, i);
      TangentIsChain(g, i, j);
      assert D.Flow(d, i, j) == D.Dot(d[i].slopes, D.Flows(d, i, j));
    }
  }

  /** The tangent is the sum over all routes of the product of local derivatives. */
  lemma {:induction false} TangentIsRouteSum(g: Graph, i: nat, j: nat)
    requires Sound(g) && i < |g|
    ensures D.Shaped(Slopes(g)) && Tangent(g, i, j) == D.Total(Slopes(g), i, D.Routes(Slopes(g), i, j))
  {
    TangentIsFlow(g, i, j);
    D.FlowIsRouteSum(Slopes(g), i, j);
  }

  // ---------------------------------------------------------------- the derivative as a limit

  /** What node i computes when the value of node j is replaced by t. */
  ghost function Eval(g: Graph, i: nat, j: nat, t: real): real
    requires Shaped(g) && i < |g|
  {
    if i == j then t
    else if g[i].op == Constant then g[i].value
    else Apply(g[i].op, seq(|g[i].inputs|, k requires 0 <= k < |g[i].inputs| => Eval(g, g[i].inputs[k], j, t)))
  }

  ghost function Evals(g: Graph, i: nat, j: nat, t: real): (xs: seq<real>)
    requires Shaped(g) && i < |g|
    ensures |xs| == |g[i].inputs|
  {
    seq(|g[i].inputs|, k requires 0 <= k < |g[i].inputs| => Eval(g, g[i].inputs[k], j, t))
  }

  /** Node i as a function of how far node j moves from its value. */
  ghost function Response(g: Graph, i: nat, j: nat): real -> real
    requires Shaped(g) && i < |g| && j < |g|
  {
    h => Eval(g, i, j, g[j].value + h)
  }

  lemma {:induction false} EvalAtValue(g: Graph, i: nat, j: nat)
    requires Sound(g) && i < |g| && j < |g|
    ensures Eval(g, i, j, g[j].value) == g[i].value
    decreases i
  {
    if i != j && g[i].op != Constant {
      forall k | 0 <= k < |g[i].inputs| ensures Evals(g, i, j, g[j].value)[k] == Values(g, i)[k] {
        EvalAtValue(g, g[i].inputs[k], j);
      }
      assert Evals(g, i, j, g[j].value) == Values(g, i);
      assert Consistent(g, i);
    }
  }

  /** A function that applies an operator to one or two functions of the step. */
  ghost predicate Applies(op: Op, s: real -> real, fs: seq<real -> real>) {
    |fs| == Arity(op) && forall h {:trigger s(h)} :: s(h) == Apply(op, At(fs, h))
  }

  ghost function At(fs: seq<real -> real>, h: real): (xs: seq<real>)
    ensures |xs| == |fs|
  {
    seq(|fs|, k requires 0 <= k < |fs| => fs[k](h))
  }

  /** The tangent of a node is the derivative of the node as a function of the variable. */
  lemma {:induction false} TangentIsDerivative(g: Graph, i: nat, j: nat)
    requires Sound(g) && i < |g| && j < |g|
    ensures HasDerivative(Response(g, i, j), Tangent(g, i, j))
    decreases i
  {
    var s := Response(g, i, j);
    if i == j {
      forall h ensures s(h) == g[j].value + h { ResponseAt(g, i, j, h); }
      IdentityRule(s, g[j].value);
    } else if g[i].op == Constant {
      forall h ensures s(h) == s(0.0) { ResponseAt(g, i, j, h); ResponseAt(g, i, j, 0.0); }
      ConstantRule(s);
      assert Tangents(g, i, j) == [];
    } else {
      var fs := Responses(g, i, j);
      forall k | 0 <= k < |fs|
        ensures HasDerivative(fs[k], Tangents(g, i, j)[k]) && fs[k](0.0) == Values(g, i)[k]
      {
        TangentIsDerivative(g, g[i].inputs[k], j);
        EvalAtValue(g, g[i].inputs[k], j);
        ResponseAt(g, g[i].inputs[k], j, 0.0);
      }
      ResponseApplies(g, i, j);
      assert Consistent(g, i);
      OperatorRule(g[i].op, s, fs, Values(g, i), Tangents(g, i, j));
      assert Tangent(g, i, j) == Dual(g[i].op, Values(g, i), Tangents(g, i, j));
    }
  }

  /** The derivative is the sum over all routes of the product of local derivatives. */
  lemma {:induction false} RouteSumIsDerivative(g: Graph, i: nat, j: nat)
    requires Sound(g) && i < |g| && j < |g|
    ensures D.Shaped(Slopes(g)) && Tangent(g, i, j) == D.Total(Slopes(g), i, D.Routes(Slopes(g), i, j))
    ensures HasDerivative(Response(g, i, j), Tangent(g, i, j))
  {
    TangentIsDerivative(g, i, j);
    TangentIsRouteSum(g, i, j);
  }

  ghost function Responses(g: Graph, i: nat, j: nat): (fs: seq<real -> real>)
    requires Shaped(g) && i < |g| && j < |g|
    ensures |fs| == |g[i].inputs|
  {
    seq(|g[i].inputs|, k requires 0 <= k < |g[i].inputs| => Response(g, g[i].inputs[k], j))
  }

  lemma {:induction false} ResponseAt(g: Graph, i: nat, j: nat, h: real)
    requires Shaped(g) && i < |g| && j < |g|
    ensures Response(g, i, j)(h) == Eval(g, i, j, g[j].value + h)
  {
  }

  lemma {:induction false} ResponseApplies(g: Graph, i: nat, j: nat)
    requires Shaped(g) && i < |g| && j < |g| && i != j && g[i].op != Constant
    ensures Applies(g[i].op, Response(g, i, j), Responses(g, i, j))
  {
    var s, fs := Response(g, i, j), Responses(g, i, j);
    forall h ensures s(h) == Apply(g[i].op, At(fs, h)) {
      ResponseAt(g, i, j, h);
      forall k | 0 <= k < |fs| ensures Evals(g, i, j, g[j].value + h)[k] == At(fs, h)[k] {
        ResponseAt(g, g[i].inputs[k], j, h);
      }
      assert Evals(g, i, j, g[j].value + h) == At(fs, h);
    }
  }

  /** Dual-number arithmetic gives the derivative of every operator. */
  lemma {:induction false} OperatorRule(op: Op, s: real -> real, fs: seq<real -> real>, xs: seq<real>, ts: seq<real>)
    requires op != Constant && Applies(op, s, fs) && |xs| == |ts| == |fs| && Defined(op, xs)
    requires forall k | 0 <= k < |fs| :: HasDerivative(fs[k], ts[k]) && fs[k](0.0) == xs[k]
    ensures HasDerivative(s, Dual(op, xs, ts))
  {
    match op
    case Add => LinearBinary(op, s, fs, xs, ts, 1.0);
    case Sub => LinearBinary(op, s, fs, xs, ts, -1.0);
    case AddScalar(k) => LinearUnary(op, s, fs, xs, ts, 1.0, k);
    case SubScalar(k) => LinearUnary(op, s, fs, xs, ts, 1.0, -k);
    case ScalarSub(k) => LinearUnary(op, s, fs, xs, ts, -1.0, k);
    case MulScalar(k) => LinearUnary(op, s, fs, xs, ts, k, 0.0);
    case Negate => LinearUnary(op, s, fs, xs, ts, -1.0, 0.0);
    case DivScalar(k) => DivScalarRule(k, s, fs, xs, ts);
    case Mul => MulRule(s, fs, xs, ts);
    case Div =>
      forall h ensures s(h) == Quotient(fs[0](h), fs[1](h)) { assert At(fs, h) == [fs[0](h), fs[1](h)]; }
      DivRule(s, fs[0], fs[1], xs[0], xs[1], ts[0], ts[1]);
    case ScalarDiv(k) =>
      forall h ensures s(h) == Quotient(k, fs[0](h)) { assert At(fs, h)[0] == fs[0](h); }
      ScalarDivRule(k, s, fs[0], xs[0], ts[0]);
    case Reciprocal =>
      forall h ensures s(h) == Quotient(1.0, fs[0](h)) { assert At(fs, h)[0] == fs[0](h); }
      ScalarDivRule(1.0, s, fs[0], xs[0], ts[0]);
  }

  lemma {:induction false} LinearUnary(op: Op, s: real -> real, fs: seq<real -> real>, xs: seq<real>, ts: seq<real>,
                                       c: real, e: real)
    requires Arity(op) == 1 && Applies(op, s, fs) && |xs| == |ts| == 1 && HasDerivative(fs[0], ts[0])
    requires forall x {:trigger Apply(op, [x])} :: Apply(op, [x]) == Times(c, x) + e
    requires Dual(op, xs, ts) == Times(c, ts[0])
    ensures HasDerivative(s, Dual(op, xs, ts))
  {
    var f := fs[0];
    forall h ensures s(h) == Times(c, f(h)) + Times(0.0, f(h)) + e {
      assert At(fs, h) == [f(h)];
      assert Apply(op, [f(h)]) == Times(c, f(h)) + e;
      assert Times(0.0, f(h)) == 0.0;
    }
    assert Times(0.0, ts[0]) == 0.0;
    SumRule(f, f, s, ts[0], ts[0], Dual(op, xs, ts), c, 0.0, e);
  }

  lemma {:induction false} LinearBinary(op: Op, s: real -> real, fs: seq<real -> real>, xs: seq<real>, ts: seq<real>,
      c: real)
    requires (op == Add && c == 1.0) || (op == Sub && c == -1.0)
    requires Applies(op, s, fs) && |xs| == |ts| == 2 && HasDerivative(fs[0], ts[0]) && HasDerivative(fs[1], ts[1])
    ensures HasDerivative(s, Dual(op, xs, ts))
  {
    var f, g := fs[0], fs[1];
    forall h ensures s(h) == Times(1.0, f(h)) + Times(c, g(h)) + 0.0 {
      assert At(fs, h) == [f(h), g(h)];
    }
    SumRule(f, g, s, ts[0], ts[1], Dual(op, xs, ts), 1.0, c, 0.0);
  }

  lemma {:induction false} DivScalarRule(k: real, s: real -> real, fs: seq<real -> real>, xs: seq<real>, ts: seq<real>)
    requires Applies(DivScalar(k), s, fs) && |xs| == |ts| == 1 && HasDerivative(fs[0], ts[0]) && k != 0.0
    ensures HasDerivative(s, Dual(DivScalar(k), xs, ts))
  {
    forall x ensures Apply(DivScalar(k), [x]) == Times(Inverse(k), x) + 0.0 { QuotientIsProduct(x, k); }
    QuotientIsProduct(ts[0], k);
    LinearUnary(DivScalar(k), s, fs, xs, ts, Inverse(k), 0.0);
  }

  lemma {:induction false} MulRule(s: real -> real, fs: seq<real -> real>, xs: seq<real>, ts: seq<real>)
    requires Applies(Mul, s, fs) && |xs| == |ts| == 2 && HasDerivative(fs[0], ts[0]) && HasDerivative(fs[1], ts[1])
    requires fs[0](0.0) == xs[0] && fs[1](0.0) == xs[1]
    ensures HasDerivative(s, Dual(Mul, xs, ts))
  {
    var f, g := fs[0], fs[1];
    forall h ensures s(h) == Times(f(h), g(h)) {
      assert At(fs, h) == [f(h), g(h)];
    }
    ProductRule(f, g, s, ts[0], ts[1], Dual(Mul, xs, ts));
  }

  /** k / x; with k == 1 it is also the reciprocal. */
  lemma {:induction false} ScalarDivRule(k: real, s: real -> real, f: real -> real, x: real, t: real)
    requires HasDerivative(f, t) && f(0.0) == x && x != 0.0
    requires forall h {:trigger s(h)} :: s(h) == Quotient(k, f(h))
    ensures HasDerivative(s, Quotient(-Times(k, t), Times(x, x)))
  {
    var p: real -> real := h => Inverse(f(h));
    InverseRule(f, p, x, t);
    forall h ensures s(h) == Times(k, p(h)) + Times(0.0, p(h)) + 0.0 {
      QuotientTotal(k, f(h));
      assert Times(0.0, p(h)) == 0.0;
    }
    var d := Times(-Inverse(x), Times(t, Inverse(x)));
    ScalarDivSlope(k, x, t);
    SumRule(p, p, s, d, d, Quotient(-Times(k, t), Times(x, x)), k, 0.0, 0.0);
  }

  lemma {:induction false} InverseRule(f: real -> real, p: real -> real, x: real, t: real)
    requires HasDerivative(f, t) && f(0.0) == x && x != 0.0 && forall h {:trigger p(h)} :: p(h) == Inverse(f(h))
    ensures HasDerivative(p, Times(-Inverse(x), Times(t, Inverse(x))))
  {
    forall h | f(h) != 0.0 ensures Times(p(h), f(h)) == 1.0 {
      InverseTimes(f(h));
    }
    assert p(0.0) == Inverse(x);
    ReciprocalRule(f, p, t, Times(-Inverse(x), Times(t, Inverse(x))));
  }

  lemma {:induction false} DivRule(s: real -> real, f: real -> real, g: real -> real, a: real, b: real, ta: real,
      tb: real)
    requires HasDerivative(f, ta) && HasDerivative(g, tb) && f(0.0) == a && g(0.0) == b && b != 0.0
    requires forall h {:trigger s(h)} :: s(h) == Quotient(f(h), g(h))
    ensures HasDerivative(s, Quotient(Times(ta, b) - Times(a, tb), Times(b, b)))
  {
    var p: real -> real := h => Inverse(g(h));
    InverseRule(g, p, b, tb);
    forall h ensures s(h) == Times(f(h), p(h)) {
      QuotientTotal(f(h), g(h));
    }
    assert p(0.0) == Inverse(b);
    ProductRule(f, p, s, ta, Times(-Inverse(b), Times(tb, Inverse(b))),
                Times(ta, p(0.0)) + Times(f(0.0), Times(-Inverse(b), Times(tb, Inverse(b)))));
    DivSlope(a, b, ta, tb);
  }

  // ---------------------------------------------------------------- quotients

  lemma {:induction false} InverseTimes(x: real)
    requires x != 0.0
    ensures Times(Inverse(x), x) == 1.0
  {
  }

  lemma {:induction false} QuotientTotal(a: real, b: real)
    ensures Quotient(a, b) == Times(a, Inverse(b))
  {
  }

  lemma {:induction false} QuotientIsProduct(a: real, b: real)
    requires b != 0.0
    ensures Quotient(a, b) == Times(Inverse(b), a)
  {
    QuotientTotal(a, b);
  }

  /** Dividing by a square is multiplying by the inverse twice. */
  lemma {:induction false} QuotientSquare(c: real, x: real)
    requires x != 0.0
    ensures Times(x, x) != 0.0 && Quotient(c, Times(x, x)) == Times(Times(c, Inverse(x)), Inverse(x))
  {
  }

  lemma {:induction false} Reassociate(a: real, b: real, c: real)
    ensures Times(a, Times(b, c)) == Times(Times(a, b), c)
  {
  }

  lemma {:induction false} ScalarDivSlope(k: real, x: real, t: real)
    requires x != 0.0
    ensures Quotient(-Times(k, t), Times(x, x))
         == Times(k, Times(-Inverse(x), Times(t, Inverse(x)))) + Times(0.0, Times(-Inverse(x), Times(t, Inverse(x))))
  {
  }

  lemma {:induction false} DivSlope(a: real, b: real, ta: real, tb: real)
    requires b != 0.0
    ensures Quotient(Times(ta, b) - Times(a, tb), Times(b, b))
         == Times(ta, Inverse(b)) + Times(a, Times(-Inverse(b), Times(tb, Inverse(b))))
  {
  }

}
