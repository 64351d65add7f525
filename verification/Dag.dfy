/**
 Weighted acyclic graphs: the flow from a vertex down to another is the sum, over all
 routes between them, of the product of the slopes along the route. It can be computed
 from the top (by recursion on the upper vertex) or by a reverse sweep that accumulates
 into the inputs of one vertex at a time, and the two agree.
 */
module Dag {
  import opened Options
  import opened Reals

  datatype Vertex = Vertex(inputs: seq<nat>, slopes: seq<real>, live: bool)
  type Dag = seq<Vertex>

  /** Inputs come before the vertices that use them; a vertex that is not live has none. */
  ghost predicate Shaped(g: Dag) {
    forall i | 0 <= i < |g| ::
      && |g[i].inputs| == |g[i].slopes|
      && (forall k | 0 <= k < |g[i].inputs| :: g[i].inputs[k] < i)
      && (!g[i].live ==> g[i].inputs == [])
  }

  function Dot(ps: seq<real>, ts: seq<real>): real
    requires |ps| == |ts|
  {
    if |ps| == 0 then 0.0 else Dot(ps[..|ps| - 1], ts[..|ts| - 1]) + Times(ps[|ps| - 1], ts[|ts| - 1])
  }

  /** How much of a unit at vertex i arrives at vertex j. */
  ghost function Flow(g: Dag, i: nat, j: nat): real
    requires Shaped(g) && i < |g|
  {
    if i == j then 1.0
    else Dot(g[i].slopes, seq(|g[i].inputs|, k requires 0 <= k < |g[i].inputs| => Flow(g, g[i].inputs[k], j)))
  }

  ghost function Flows(g: Dag, i: nat, j: nat): (ts: seq<real>)
    requires Shaped(g) && i < |g|
    ensures |ts| == |g[i].inputs|
  {
    seq(|g[i].inputs|, k requires 0 <= k < |g[i].inputs| => Flow(g, g[i].inputs[k], j))
  }

  // ---------------------------------------------------------------- routes

  /** A path down the graph, as the node left and the input taken at each edge. */
  type Route = seq<(nat, nat)>

  ghost predicate IsRoute(g: Dag, i: nat, j: nat, route: Route)
    requires Shaped(g) && i < |g|
    decreases |route|
  {
    if route == [] then i == j
    else
      && route[0].0 == i && route[0].1 < |g[i].inputs|
      && IsRoute(g, g[i].inputs[route[0].1], j, route[1..])
  }

  /** The product of the slopes along a route from node i. */
  ghost function Weight(g: Dag, i: nat, route: Route): real
    requires Shaped(g) && i < |g|
    decreases |route|
  {
    if route == [] then 1.0
    else if route[0].1 < |g[i].inputs| then
      Times(g[i].slopes[route[0].1], Weight(g, g[i].inputs[route[0].1], route[1..]))
    else 0.0
  }

  ghost function Prefixed(e: (nat, nat), routes: seq<Route>): (r: seq<Route>)
    ensures |r| == |routes|
    ensures forall n | 0 <= n < |r| :: r[n] == [e] + routes[n]
  {
    seq(|routes|, n requires 0 <= n < |routes| => [e] + routes[n])
  }

  /** All routes from node i to node j. */
  ghost function Routes(g: Dag, i: nat, j: nat): seq<Route>
    requires Shaped(g) && i < |g|
    decreases i, 1, 0
  {
    if i == j then [[]] else RoutesVia(g, i, j, |g[i].inputs|)
  }

  /** The routes that leave node i by one of its first k inputs. */
  ghost function RoutesVia(g: Dag, i: nat, j: nat, k: nat): seq<Route>
    requires Shaped(g) && i < |g| && k <= |g[i].inputs|
    decreases i, 0, k
  {
    if k == 0 then []
    else RoutesVia(g, i, j, k - 1) + Prefixed((i, k - 1), Routes(g, g[i].inputs[k - 1], j))
  }

  ghost function Total(g: Dag, i: nat, routes: seq<Route>): real
    requires Shaped(g) && i < |g|
  {
    if routes == [] then 0.0 else Total(g, i, routes[..|routes| - 1]) + Weight(g, i, routes[|routes| - 1])
  }

  /** Routes lists every route: nothing else, and none is missing. */
  lemma {:induction false} RoutesAreAll(g: Dag, i: nat, j: nat, route: Route)
    requires Shaped(g) && i < |g|
    ensures route in Routes(g, i, j) <==> IsRoute(g, i, j, route)
    decreases i, 1, 0
  {
    if i == j {
      if route != [] && IsRoute(g, i, j, route) {
        RoutesGoDown(g, g[i].inputs[route[0].1], j, route[1..]);
      }
    } else {
      RoutesViaAreAll(g, i, j, |g[i].inputs|, route);
    }
  }

  lemma {:induction false} RoutesGoDown(g: Dag, i: nat, j: nat, route: Route)
    requires Shaped(g) && i < |g| && IsRoute(g, i, j, route)
    ensures j <= i
    decreases |route|
  {
    if route != [] { RoutesGoDown(g, g[i].inputs[route[0].1], j, route[1..]); }
  }

  lemma {:induction false} RoutesViaAreAll(g: Dag, i: nat, j: nat, k: nat, route: Route)
    requires Shaped(g) && i < |g| && k <= |g[i].inputs|
    ensures route in RoutesVia(g, i, j, k) <==> route != [] && route[0].1 < k && IsRoute(g, i, j, route)
    decreases i, 0, k
  {
    if k > 0 {
      RoutesViaAreAll(g, i, j, k - 1, route);
      var p := g[i].inputs[k - 1];
      PrefixedMember((i, k - 1), Routes(g, p, j), route);
      if route != [] { RoutesAreAll(g, p, j, route[1..]); }
    }
  }

  lemma {:induction false} PrefixedMember(e: (nat, nat), routes: seq<Route>, route: Route)
    ensures route in Prefixed(e, routes) <==> route != [] && route[0] == e && route[1..] in routes
  {
    var ps := Prefixed(e, routes);
    if route in ps {
      var n :| 0 <= n < |ps| && ps[n] == route;
      assert route == [e] + routes[n];
      assert route[1..] == routes[n];
    }
    if route != [] && route[0] == e && route[1..] in routes {
      var n :| 0 <= n < |routes| && routes[n] == route[1..];
      assert [e] + routes[n] == route && ps[n] == route;
    }
  }

  /** No route is listed twice. */
  lemma {:induction false} RoutesAreDistinct(g: Dag, i: nat, j: nat)
    requires Shaped(g) && i < |g|
    ensures forall m, n | 0 <= m < n < |Routes(g, i, j)| :: Routes(g, i, j)[m] != Routes(g, i, j)[n]
    decreases i, 1, 0
  {
    if i != j { RoutesViaAreDistinct(g, i, j, |g[i].inputs|); }
  }

  lemma {:induction false} RoutesViaAreDistinct(g: Dag, i: nat, j: nat, k: nat)
    requires Shaped(g) && i < |g| && k <= |g[i].inputs|
    ensures forall m, n | 0 <= m < n < |RoutesVia(g, i, j, k)| :: RoutesVia(g, i, j, k)[m] != RoutesVia(g, i, j, k)[n]
    decreases i, 0, k
  {
    if k > 0 {
      RoutesViaAreDistinct(g, i, j, k - 1);
      RoutesAreDistinct(g, g[i].inputs[k - 1], j);
      var front, back := RoutesVia(g, i, j, k - 1), Prefixed((i, k - 1), Routes(g, g[i].inputs[k - 1], j));
      var all := front + back;
      forall m: int, n: int | 0 <= m < n < |all| ensures all[m] != all[n] {
        if m < |front| <= n {
          RoutesViaAreAll(g, i, j, k - 1, front[m]);
          assert front[m] in front;
        } else if |front| <= m {
          assert back[m - |front|][1..] == Routes(g, g[i].inputs[k - 1], j)[m - |front|];
          assert back[n - |front|][1..] == Routes(g, g[i].inputs[k - 1], j)[n - |front|];
        }
      }
    }
  }

  /** The sum over all routes of the product of slopes is the flow. */
  lemma {:induction false} FlowIsRouteSum(g: Dag, i: nat, j: nat)
    requires Shaped(g) && i < |g|
    ensures Total(g, i, Routes(g, i, j)) == Flow(g, i, j)
    decreases i, 1, 0
  {
    if i == j {
      TotalOne(g, i);
    } else {
      var n := |g[i].inputs|;
      RouteSumVia(g, i, j, n);
      var ps, ts := g[i].slopes, Flows(g, i, j);
      assert ps[..n] == ps && ts[..n] == ts;
    }
  }

  lemma {:induction false} TotalOne(g: Dag, i: nat)
    requires Shaped(g) && i < |g|
    ensures Total(g, i, [[]]) == 1.0
  {
  }

  lemma {:induction false} RouteSumVia(g: Dag, i: nat, j: nat, k: nat)
    requires Shaped(g) && i < |g| && k <= |g[i].inputs|
    ensures Total(g, i, RoutesVia(g, i, j, k))
         == Dot(g[i].slopes[..k], Flows(g, i, j)[..k])
    decreases i, 0, k
  {
    if k > 0 {
      var p := g[i].inputs[k - 1];
      RouteSumVia(g, i, j, k - 1);
      FlowIsRouteSum(g, p, j);
      TotalStep(g, i, j, k, p);
      DotStep(g[i].slopes, Flows(g, i, j), k);
    }
  }

  lemma {:induction false} TotalStep(g: Dag, i: nat, j: nat, k: nat, p: nat)
    requires Shaped(g) && i < |g| && 0 < k <= |g[i].inputs| && p == g[i].inputs[k - 1]
    ensures Total(g, i, RoutesVia(g, i, j, k))
         == Total(g, i, RoutesVia(g, i, j, k - 1)) + Times(g[i].slopes[k - 1], Total(g, p, Routes(g, p, j)))
  {
    TotalConcat(g, i, RoutesVia(g, i, j, k - 1), Prefixed((i, k - 1), Routes(g, p, j)));
    TotalPrefixed(g, i, k - 1, p, Routes(g, p, j));
  }

  lemma {:induction false} DotStep(ps: seq<real>, ts: seq<real>, k: nat)
    requires |ps| == |ts| && 0 < k <= |ps|
    ensures Dot(ps[..k], ts[..k]) == Dot(ps[..k - 1], ts[..k - 1]) + Times(ps[k - 1], ts[k - 1])
  {
    assert ps[..k][..k - 1] == ps[..k - 1] && ts[..k][..k - 1] == ts[..k - 1];
  }

  lemma {:induction false} TotalConcat(g: Dag, i: nat, a: seq<Route>, b: seq<Route>)
    requires Shaped(g) && i < |g|
    ensures Total(g, i, a + b) == Total(g, i, a) + Total(g, i, b)
    decreases |b|
  {
    if b == [] {
      assert a + b == a;
    } else {
      var c := b[..|b| - 1];
      TotalConcat(g, i, a, c);
      assert (a + b)[..|a + b| - 1] == a + c;
    }
  }

  lemma {:induction false} TotalPrefixed(g: Dag, i: nat, k: nat, p: nat, routes: seq<Route>)
    requires Shaped(g) && i < |g| && k < |g[i].inputs| && p == g[i].inputs[k]
    ensures Total(g, i, Prefixed((i, k), routes)) == Times(g[i].slopes[k], Total(g, p, routes))
    decreases |routes|
  {
    var ps := Prefixed((i, k), routes);
    if routes != [] {
      var front, last := routes[..|routes| - 1], routes[|routes| - 1];
      TotalPrefixed(g, i, k, p, front);
      assert ps[..|ps| - 1] == Prefixed((i, k), front);
      assert ps[|ps| - 1] == [(i, k)] + last && ([(i, k)] + last)[1..] == last;
      Spread(g[i].slopes[k], Total(g, p, front), Weight(g, p, last));
    }
  }

  lemma {:induction false} Spread(c: real, x: real, y: real)
    ensures Times(c, x + y) == Times(c, x) + Times(c, y)
  {
  }

  // ---------------------------------------------------------------- the reverse sweep

  function Amount(o: Option<real>): real {
    match o
    case None => 0.0
    case Some(x) => x
  }

  /** Accumulation: the first contribution is stored, later ones are added. */
  function Plus(o: Option<real>, x: real): Option<real> {
    match o
    case None => Some(x)
    case Some(y) => Some(y + x)
  }

  /** What the accumulators of the first i vertices are worth at vertex j. */
  ghost function Worth(g: Dag, acc: seq<Option<real>>, i: nat, j: nat): real
    requires Shaped(g) && |acc| == |g| && i <= |g|
  {
    if i == 0 then 0.0 else Worth(g, acc, i - 1, j) + Times(Amount(acc[i - 1]), Flow(g, i - 1, j))
  }

  /** The accumulators after vertex q, holding x, has fed its first k inputs. */
  ghost function Feed(g: Dag, acc: seq<Option<real>>, q: nat, x: real, k: nat): (r: seq<Option<real>>)
    requires Shaped(g) && |acc| == |g| && q < |g| && k <= |g[q].inputs|
    ensures |r| == |acc|
    ensures forall p | q <= p < |acc| :: r[p] == acc[p]
  {
    if k == 0 then acc
    else
      var a, p := Feed(g, acc, q, x, k - 1), g[q].inputs[k - 1];
      if g[p].live then a[p := Plus(a[p], Times(x, g[q].slopes[k - 1]))] else a
  }

  lemma {:induction false} WorthUpdate(g: Dag, acc: seq<Option<real>>, p: nat, x: real, i: nat, j: nat)
    requires Shaped(g) && |acc| == |g| && p < i <= |g|
    ensures Worth(g, acc[p := Plus(acc[p], x)], i, j) == Worth(g, acc, i, j) + Times(x, Flow(g, p, j))
    decreases i
  {
    var more := acc[p := Plus(acc[p], x)];
    if p == i - 1 {
      WorthAgrees(g, acc, more, p, j);
      assert Amount(more[p]) == Amount(acc[p]) + x;
      SpreadLeft(Amount(acc[p]), x, Flow(g, p, j));
    } else {
      WorthUpdate(g, acc, p, x, i - 1, j);
    }
  }

  lemma {:induction false} WorthAgrees(g: Dag, a: seq<Option<real>>, b: seq<Option<real>>, i: nat, j: nat)
    requires Shaped(g) && |a| == |b| == |g| && i <= |g| && forall p | 0 <= p < i :: a[p] == b[p]
    ensures Worth(g, a, i, j) == Worth(g, b, i, j)
    decreases i
  {
    if i > 0 { WorthAgrees(g, a, b, i - 1, j); }
  }

  lemma {:induction false} SpreadLeft(a: real, b: real, c: real)
    ensures Times(a + b, c) == Times(a, c) + Times(b, c)
  {
  }

  /** Nothing flows upwards, and nothing flows out of a vertex that is not live. */
  lemma {:induction false} NoFlow(g: Dag, i: nat, j: nat)
    requires Shaped(g) && i < |g| && (i < j || (i != j && !g[i].live))
    ensures Flow(g, i, j) == 0.0
  {
    var ts := Flows(g, i, j);
    forall k | 0 <= k < |ts| ensures ts[k] == 0.0 {
      NoFlow(g, g[i].inputs[k], j);
    }
    DotZero(g[i].slopes, ts);
  }

  lemma {:induction false} DotZero(ps: seq<real>, ts: seq<real>)
    requires |ps| == |ts| && forall k | 0 <= k < |ts| :: ts[k] == 0.0
    ensures Dot(ps, ts) == 0.0
    decreases |ps|
  {
    if |ps| > 0 { DotZero(ps[..|ps| - 1], ts[..|ts| - 1]); }
  }

  /** Feeding one more input adds the fed amount times the flow through it. */
  lemma {:induction false} FeedOneWorth(g: Dag, acc: seq<Option<real>>, q: nat, x: real, k: nat, j: nat)
    requires Shaped(g) && |acc| == |g| && q < |g| && 0 < k <= |g[q].inputs| && j < q && g[j].live
    ensures Worth(g, Feed(g, acc, q, x, k), q, j)
         == Worth(g, Feed(g, acc, q, x, k - 1), q, j)
            + Times(Times(x, g[q].slopes[k - 1]), Flow(g, g[q].inputs[k - 1], j))
  {
    var p := g[q].inputs[k - 1];
    if g[p].live {
      WorthUpdate(g, Feed(g, acc, q, x, k - 1), p, Times(x, g[q].slopes[k - 1]), q, j);
    } else {
      NoFlow(g, p, j);
    }
  }

  /** Feeding the inputs adds the fed amount times the flow through them. */
  lemma {:induction false} FeedWorth(g: Dag, acc: seq<Option<real>>, q: nat, x: real, k: nat, j: nat)
    requires Shaped(g) && |acc| == |g| && q < |g| && k <= |g[q].inputs| && j < q && g[j].live
    ensures Worth(g, Feed(g, acc, q, x, k), q, j)
         == Worth(g, acc, q, j) + Times(x, Dot(g[q].slopes[..k], Flows(g, q, j)[..k]))
    decreases k
  {
    if k > 0 {
      var p, c := g[q].inputs[k - 1], g[q].slopes[k - 1];
      FeedWorth(g, acc, q, x, k - 1, j);
      FeedOneWorth(g, acc, q, x, k, j);
      DotStep(g[q].slopes, Flows(g, q, j), k);
      FeedTerm(x, c, Flow(g, p, j), Dot(g[q].slopes[..k - 1], Flows(g, q, j)[..k - 1]));
    }
  }

  lemma {:induction false} FeedTerm(x: real, c: real, t: real, d: real)
    ensures Times(x, d + Times(c, t)) == Times(x, d) + Times(Times(x, c), t)
  {
  }

  /** One turn of the sweep keeps what the accumulators are worth at every live vertex below. */
  lemma {:induction false} SweepKeepsWorth(g: Dag, acc: seq<Option<real>>, q: nat, j: nat)
    requires Shaped(g) && |acc| == |g| && j < q < |g| && g[j].live
    ensures Worth(g, Feed(g, acc, q, Amount(acc[q]), |g[q].inputs|), q, j) == Worth(g, acc, q + 1, j)
  {
    var n := |g[q].inputs|;
    FeedWorth(g, acc, q, Amount(acc[q]), n, j);
    assert g[q].slopes[..n] == g[q].slopes && Flows(g, q, j)[..n] == Flows(g, q, j);
    assert Flow(g, q, j) == Dot(g[q].slopes, Flows(g, q, j));
  }

  /** When its turn comes, a vertex has accumulated all it is worth. */
  lemma {:induction false} TurnIsComplete(g: Dag, acc: seq<Option<real>>, q: nat)
    requires Shaped(g) && |acc| == |g| && q < |g|
    ensures Worth(g, acc, q + 1, q) == Amount(acc[q])
  {
    WorthAbove(g, acc, q, q);
    assert Times(Amount(acc[q]), Flow(g, q, q)) == Amount(acc[q]);
  }

  lemma {:induction false} WorthAbove(g: Dag, acc: seq<Option<real>>, i: nat, j: nat)
    requires Shaped(g) && |acc| == |g| && i <= |g| && i <= j
    ensures Worth(g, acc, i, j) == 0.0
    decreases i
  {
    if i > 0 {
      WorthAbove(g, acc, i - 1, j);
      NoFlow(g, i - 1, j);
    }
  }

  /** At the start only the last vertex holds anything. */
  lemma {:induction false} WorthAtStart(g: Dag, acc: seq<Option<real>>, j: nat)
    requires Shaped(g) && |acc| == |g| > 0 && forall p | 0 <= p < |g| - 1 :: acc[p] == None
    ensures Worth(g, acc, |g|, j) == Times(Amount(acc[|g| - 1]), Flow(g, |g| - 1, j))
  {
    WorthOfNothing(g, acc, |g| - 1, j);
  }

  lemma {:induction false} WorthOfNothing(g: Dag, acc: seq<Option<real>>, i: nat, j: nat)
    requires Shaped(g) && |acc| == |g| && i <= |g| && forall p | 0 <= p < i :: acc[p] == None
    ensures Worth(g, acc, i, j) == 0.0
    decreases i
  {
    if i > 0 { WorthOfNothing(g, acc, i - 1, j); }
  }

  /** Vertex p is an input of some vertex at or after i. */
  ghost predicate UsedFrom(g: Dag, p: nat, i: nat) {
    exists l, k :: i <= l < |g| && 0 <= k < |g[l].inputs| && g[l].inputs[k] == p
  }

  /** Vertex p is an input of some later vertex. */
  ghost predicate UsedAbove(g: Dag, p: nat) {
    UsedFrom(g, p, p + 1)
  }

  /** At every live vertex still to come, the accumulators are worth x times the flow from the last vertex. */
  ghost predicate Balanced(g: Dag, acc: seq<Option<real>>, i: nat, x: real)
    requires Shaped(g) && |acc| == |g| && i <= |g|
  {
    forall j | 0 <= j < i && g[j].live :: Worth(g, acc, i, j) == Times(x, Flow(g, |g| - 1, j))
  }

  /** Only live vertices accumulate, and those with a consumer that had its turn have done so. */
  ghost predicate Available(g: Dag, acc: seq<Option<real>>, i: nat)
    requires Shaped(g) && |acc| == |g| && i <= |g|
  {
    forall p | 0 <= p < i ::
      (acc[p].Some? ==> g[p].live) && (g[p].live && (p == |g| - 1 || UsedFrom(g, p, i)) ==> acc[p].Some?)
  }

  lemma {:induction false} SweepStart(g: Dag, acc: seq<Option<real>>, x: real)
    requires Shaped(g) && |acc| == |g| > 0 && forall p | 0 <= p < |g| - 1 :: acc[p] == None
    requires acc[|g| - 1] == if g[|g| - 1].live then Some(x) else None
    ensures Balanced(g, acc, |g|, x) && Available(g, acc, |g|)
  {
    forall j | 0 <= j < |g| && g[j].live ensures Worth(g, acc, |g|, j) == Times(x, Flow(g, |g| - 1, j)) {
      WorthAtStart(g, acc, j);
      if !g[|g| - 1].live { NoFlow(g, |g| - 1, j); }
    }
  }

  /** A turn of the sweep: vertex q holds its final amount, and feeding its inputs restores the balance. */
  lemma {:induction false} SweepTurn(g: Dag, acc: seq<Option<real>>, q: nat, x: real)
    requires Shaped(g) && |acc| == |g| && q < |g|
    requires Balanced(g, acc, q + 1, x) && Available(g, acc, q + 1)
    requires q == |g| - 1 || UsedAbove(g, q)
    ensures acc[q] == if g[q].live then Some(Times(x, Flow(g, |g| - 1, q))) else None
    ensures var fed := Feed(g, acc, q, Amount(acc[q]), |g[q].inputs|); Balanced(g, fed, q, x) && Available(g, fed, q)
  {
    TurnIsComplete(g, acc, q);
    var n := |g[q].inputs|;
    var fed := Feed(g, acc, q, Amount(acc[q]), n);
    forall j | 0 <= j < q && g[j].live ensures Worth(g, fed, q, j) == Times(x, Flow(g, |g| - 1, j)) {
      SweepKeepsWorth(g, acc, q, j);
    }
    forall p | 0 <= p < q
      ensures (fed[p].Some? ==> g[p].live) && (g[p].live && (p == |g| - 1 || UsedFrom(g, p, q)) ==> fed[p].Some?)
    {
      FeedAvailable(g, acc, q, Amount(acc[q]), n, p);
      if UsedFrom(g, p, q) && !UsedFrom(g, p, q + 1) {
        var l, k :| q <= l < |g| && 0 <= k < |g[l].inputs| && g[l].inputs[k] == p;
      }
    }
  }

  lemma {:induction false} FeedAvailable(g: Dag, acc: seq<Option<real>>, q: nat, x: real, n: nat, p: nat)
    requires Shaped(g) && |acc| == |g| && q < |g| && n <= |g[q].inputs| && p < q
    requires acc[p].Some? ==> g[p].live
    ensures var fed := Feed(g, acc, q, x, n);
            && (fed[p].Some? ==> g[p].live)
            && (acc[p].Some? ==> fed[p].Some?)
            && (forall k | 0 <= k < n && g[q].inputs[k] == p && g[p].live :: fed[p].Some?)
    decreases n
  {
    if n > 0 { FeedAvailable(g, acc, q, x, n - 1, p); }
  }
}
