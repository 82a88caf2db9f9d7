/**
 The network model: links between resources, routes over them, and the two
 shortest-route searches (`resolveNetworkPath` prices transfers in the simulator,
 `shortestLinkPath` writes the routes of the SimGrid platform).
 */
module Network {
  import opened Graphs
  import opened Outcomes

  datatype Link = Link(
    source: Id,
    target: Id,
    bandwidth: real,
    latency: real,
    pricePerByte: real,
    bidirectional: bool
  )

  function TransferSeconds(link: Link, bytes: int): real {
    if bytes <= 0 then link.latency
    else if link.bandwidth <= 0.0 then 0.0
    else link.latency + bytes as real / (link.bandwidth / 8.0)
  }

  /** The weight that `platformGraph` gives to a link. */
  function PlatformWeight(link: Link): real {
    link.latency + 8.0 / (if link.bandwidth > 1.0 then link.bandwidth else 1.0)
  }

  function Seconds(links: seq<Link>, bytes: int): seq<real> {
    seq(|links|, i requires 0 <= i < |links| => TransferSeconds(links[i], bytes))
  }

  function Prices(links: seq<Link>, bytes: int): seq<real> {
    seq(|links|, i requires 0 <= i < |links| => bytes as real * links[i].pricePerByte)
  }

  function PlatformWeights(links: seq<Link>): seq<real> {
    seq(|links|, i requires 0 <= i < |links| => PlatformWeight(links[i]))
  }

  // ---------- Routes: the declarative side ----------

  /** One use of a link; crossing it backwards is possible only for bidirectional links. */
  datatype Crossing = Crossing(index: nat, backward: bool)

  predicate Usable(links: seq<Link>, c: Crossing) {
    c.index < |links| && (c.backward ==> links[c.index].bidirectional)
  }

  function Tail(links: seq<Link>, c: Crossing): Id
    requires Usable(links, c)
  {
    if c.backward then links[c.index].target else links[c.index].source
  }

  function Head(links: seq<Link>, c: Crossing): Id
    requires Usable(links, c)
  {
    if c.backward then links[c.index].source else links[c.index].target
  }

  /** `route` leads from `a` to `b`, each crossing starting where the previous one ends. */
  ghost predicate Route(links: seq<Link>, route: seq<Crossing>, a: Id, b: Id) {
    if route == [] then a == b else
      var last := route[|route| - 1];
      && Usable(links, last)
      && Head(links, last) == b
      && Route(links, route[..|route| - 1], a, Tail(links, last))
  }

  ghost predicate Reachable(links: seq<Link>, a: Id, b: Id) {
    exists route :: Route(links, route, a, b)
  }

  function WeightAt(weights: seq<real>, c: Crossing): real {
    if c.index < |weights| then weights[c.index] else 0.0
  }

  function Total(weights: seq<real>, route: seq<Crossing>): real {
    if route == [] then 0.0
    else Total(weights, route[..|route| - 1]) + WeightAt(weights, route[|route| - 1])
  }

  function Indices(route: seq<Crossing>): seq<nat> {
    seq(|route|, i requires 0 <= i < |route| => route[i].index)
  }

  predicate NonNegative(weights: seq<real>) {
    forall w <- weights :: w >= 0.0
  }

  /** No route from `a` to `b` weighs less than `t`. */
  ghost predicate Minimal(links: seq<Link>, weights: seq<real>, a: Id, b: Id, t: real) {
    forall route :: Route(links, route, a, b) ==> t <= Total(weights, route)
  }

  /** `t` is the weight of some route and of no worse one. */
  ghost predicate ShortestTime(links: seq<Link>, weights: seq<real>, a: Id, b: Id, t: real) {
    && Minimal(links, weights, a, b, t)
    && exists route :: Route(links, route, a, b) && Total(weights, route) == t
  }

  // ---------- Adjacency lists ----------

  datatype Edge = Edge(crossing: Crossing, to: Id, seconds: real, cost: real)

  type Graph = map<Id, seq<Edge>>

  function Adjacent(graph: Graph, n: Id): seq<Edge> {
    if n in graph then graph[n] else []
  }

  function EdgeFor(links: seq<Link>, weights: seq<real>, prices: seq<real>, c: Crossing): Edge
    requires Usable(links, c)
  {
    Edge(c, Head(links, c), WeightAt(weights, c), WeightAt(prices, c))
  }

  /** The adjacency lists hold exactly the usable crossings of the first `n` links. */
  ghost predicate Represents(graph: Graph, links: seq<Link>, weights: seq<real>, prices: seq<real>, n: nat) {
    && (forall a, e | e in Adjacent(graph, a) ::
          && Usable(links, e.crossing)
          && Tail(links, e.crossing) == a
          && e == EdgeFor(links, weights, prices, e.crossing))
    && (forall c | Usable(links, c) && c.index < n ::
          EdgeFor(links, weights, prices, c) in Adjacent(graph, Tail(links, c)))
  }

  function WithEdge(graph: Graph, n: Id, e: Edge): (r: Graph)
    ensures forall a, x :: x in Adjacent(r, a) <==> x in Adjacent(graph, a) || (a == n && x == e)
  {
    graph[n := Adjacent(graph, n) + [e]]
  }

  /** Adding the crossings of one more link. */
  lemma RepresentOne(graph: Graph, links: seq<Link>, weights: seq<real>, prices: seq<real>, n: nat, more: Graph)
    requires n < |links| && Represents(graph, links, weights, prices, n)
    requires forall a, x :: x in Adjacent(more, a) <==>
               || x in Adjacent(graph, a)
               || (a == links[n].source && x == EdgeFor(links, weights, prices, Crossing(n, false)))
               || (links[n].bidirectional && a == links[n].target
                   && x == EdgeFor(links, weights, prices, Crossing(n, true)))
    ensures Represents(more, links, weights, prices, n + 1)
  {
    hide Adjacent;
    assert forall c: Crossing :: c.index == n ==> c == Crossing(n, false) || c == Crossing(n, true);
  }

  method BuildGraph(links: seq<Link>, weights: seq<real>, prices: seq<real>) returns (graph: Graph)
    requires |weights| == |links| == |prices|
    ensures Represents(graph, links, weights, prices, |links|)
  {
    graph := map[];
    for index := 0 to |links|
      invariant Represents(graph, links, weights, prices, index)
    {
      var link := links[index];
      var value := Edge(Crossing(index, false), link.target, weights[index], prices[index]);
      assert value == EdgeFor(links, weights, prices, Crossing(index, false));
      ghost var before := graph;
      hide Represents, Adjacent;
      graph := WithEdge(graph, link.source, value);
      if link.bidirectional {
        value := value.(crossing := Crossing(index, true), to := link.source);
        assert value == EdgeFor(links, weights, prices, Crossing(index, true));
        graph := WithEdge(graph, link.target, value);
      }
      RepresentOne(before, links, weights, prices, index, graph);
    }
  }

  // ---------- What the searches maintain ----------

  /** Every label is the weight of a known route from the source. */
  ghost predicate Labels(
    links: seq<Link>, weights: seq<real>, source: Id, distance: map<Id, real>, via: map<Id, seq<Crossing>>)
  {
    && distance.Keys == via.Keys
    && source in distance
    && forall n <- distance :: Route(links, via[n], source, n) && distance[n] == Total(weights, via[n])
  }

  /** All crossings out of visited nodes have been followed. */
  ghost predicate Explored(links: seq<Link>, distance: map<Id, real>, visited: set<Id>) {
    && visited <= distance.Keys
    && forall c | Usable(links, c) && Tail(links, c) in visited :: Head(links, c) in distance
  }

  /** Visited labels are final: no crossing improves on them and no open label is below them. */
  ghost predicate Settled(
    links: seq<Link>, weights: seq<real>, source: Id, distance: map<Id, real>, visited: set<Id>)
    requires Explored(links, distance, visited) && source in distance
  {
    && distance[source] <= 0.0
    && (forall c | Usable(links, c) && Tail(links, c) in visited ::
          distance[Head(links, c)] <= distance[Tail(links, c)] + WeightAt(weights, c))
    && (forall v <- visited, u <- distance.Keys - visited :: distance[v] <= distance[u])
  }

  ghost predicate EndsAt(edges: seq<Edge>, n: Id) {
    exists e <- edges :: e.to == n
  }

  /** Exactly the ends of `edges` have got labels. */
  ghost predicate Reached(edges: seq<Edge>, current: Id, before: map<Id, real>, after: map<Id, real>) {
    && current in before
    && forall n :: n in after <==> n in before || EndsAt(edges, n)
  }

  /** Labels have only been lowered, to what `edges` offer and not below the label of `current`. */
  ghost predicate Lowered(edges: seq<Edge>, current: Id, before: map<Id, real>, after: map<Id, real>)
    requires Reached(edges, current, before, after)
  {
    && (forall n <- before :: after[n] <= before[n])
    && (forall n <- before :: before[n] <= before[current] ==> after[n] == before[n])
    && (forall n <- after :: n !in before || after[n] != before[n] ==> before[current] <= after[n])
    && (forall e <- edges :: after[e.to] <= before[current] + e.seconds)
  }

  /** The effect of following `edges` out of `current` on the labels. */
  ghost predicate Relaxed(edges: seq<Edge>, current: Id, before: map<Id, real>, after: map<Id, real>) {
    Reached(edges, current, before, after)
    && ((forall e <- edges :: e.seconds >= 0.0) ==> Lowered(edges, current, before, after))
  }

  function Nodes(links: seq<Link>, source: Id): set<Id> {
    {source} + (set l <- links :: l.source) + (set l <- links :: l.target)
  }

  /** All usable crossings out of `n` are among `edges`, and nothing else is. */
  ghost predicate Leaving(links: seq<Link>, weights: seq<real>, prices: seq<real>, n: Id, edges: seq<Edge>) {
    && (forall e <- edges :: Usable(links, e.crossing) && e == EdgeFor(links, weights, prices, e.crossing))
    && (forall c | Usable(links, c) && Tail(links, c) == n :: EdgeFor(links, weights, prices, c) in edges)
  }

  lemma AdjacentLeave(graph: Graph, links: seq<Link>, weights: seq<real>, prices: seq<real>, n: Id)
    requires Represents(graph, links, weights, prices, |links|)
    ensures Leaving(links, weights, prices, n, Adjacent(graph, n))
  {
  }

  lemma VisitExplores(
    links: seq<Link>, weights: seq<real>, prices: seq<real>, edges: seq<Edge>, source: Id,
    before: map<Id, real>, after: map<Id, real>, visited: set<Id>, current: Id)
    requires Leaving(links, weights, prices, current, edges) && Explored(links, before, visited)
    requires before.Keys <= Nodes(links, source) && Relaxed(edges, current, before, after)
    ensures Explored(links, after, visited + {current}) && after.Keys <= Nodes(links, source)
  {
    forall c | Usable(links, c) && Tail(links, c) in visited + {current} ensures Head(links, c) in after {
      assert Tail(links, c) == current ==> EdgeFor(links, weights, prices, c) in edges;
    }
    forall n <- after ensures n in Nodes(links, source) {
      if n !in before {
        var e :| e in edges && e.to == n;
        assert links[e.crossing.index] in links;
      }
    }
  }

  lemma LeavingIsNonNegative(links: seq<Link>, weights: seq<real>, prices: seq<real>, n: Id, edges: seq<Edge>)
    requires Leaving(links, weights, prices, n, edges) && NonNegative(weights) && |weights| == |links|
    ensures forall e <- edges :: e.seconds >= 0.0
  {
    forall e <- edges ensures e.seconds >= 0.0 {
      assert weights[e.crossing.index] in weights;
    }
  }

  lemma VisitSettles(
    links: seq<Link>, weights: seq<real>, prices: seq<real>, edges: seq<Edge>, source: Id,
    before: map<Id, real>, after: map<Id, real>, visited: set<Id>, current: Id)
    requires Leaving(links, weights, prices, current, edges) && forall e <- edges :: e.seconds >= 0.0
    requires source in before && Explored(links, before, visited) && Settled(links, weights, source, before, visited)
    requires current in before.Keys - visited && forall u <- before.Keys - visited :: before[current] <= before[u]
    requires Relaxed(edges, current, before, after) && Explored(links, after, visited + {current})
    ensures Settled(links, weights, source, after, visited + {current})
  {
    forall c | Usable(links, c) && Tail(links, c) in visited + {current}
      ensures after[Head(links, c)] <= after[Tail(links, c)] + WeightAt(weights, c)
    {
      assert Tail(links, c) == current ==> EdgeFor(links, weights, prices, c) in edges;
    }
  }

  /** Visiting the nearest open node keeps what the search maintains. */
  lemma Visit(
    links: seq<Link>, weights: seq<real>, prices: seq<real>, graph: Graph, source: Id,
    before: map<Id, real>, after: map<Id, real>, visited: set<Id>, current: Id)
    requires |weights| == |links| && Represents(graph, links, weights, prices, |links|)
    requires source in before && Explored(links, before, visited)
    requires current in before.Keys - visited && before.Keys <= Nodes(links, source)
    requires Relaxed(Adjacent(graph, current), current, before, after)
    ensures Explored(links, after, visited + {current}) && after.Keys <= Nodes(links, source)
    ensures (NonNegative(weights) && Settled(links, weights, source, before, visited)
             && forall u <- before.Keys - visited :: before[current] <= before[u]) ==>
              Settled(links, weights, source, after, visited + {current})
  {
    hide *;
    AdjacentLeave(graph, links, weights, prices, current);
    VisitExplores(links, weights, prices, Adjacent(graph, current), source, before, after, visited, current);
    if NonNegative(weights) && Settled(links, weights, source, before, visited)
       && forall u <- before.Keys - visited :: before[current] <= before[u]
    {
      LeavingIsNonNegative(links, weights, prices, current, Adjacent(graph, current));
      VisitSettles(links, weights, prices, Adjacent(graph, current), source, before, after, visited, current);
    }
  }

  /** Nothing outside an exhausted search is reachable. */
  lemma {:induction false} ExhaustedSearchIsClosed(
    links: seq<Link>, source: Id, distance: map<Id, real>, route: seq<Crossing>, b: Id)
    requires source in distance && Explored(links, distance, distance.Keys)
    requires Route(links, route, source, b)
    ensures b in distance
  {
    if route != [] {
      var last := route[|route| - 1];
      ExhaustedSearchIsClosed(links, source, distance, route[..|route| - 1], Tail(links, last));
    }
  }

  /** A route either costs at least the nearest open label or is no better than the label of its end. */
  lemma {:induction false} RouteLowerBound(
    links: seq<Link>, weights: seq<real>, source: Id, distance: map<Id, real>, visited: set<Id>,
    best: real, route: seq<Crossing>, b: Id)
    requires source in distance && Explored(links, distance, visited)
    requires NonNegative(weights) && Settled(links, weights, source, distance, visited)
    requires forall u <- distance.Keys - visited :: best <= distance[u]
    requires Route(links, route, source, b)
    ensures best <= Total(weights, route) || (b in distance && distance[b] <= Total(weights, route))
  {
    if route != [] {
      var last := route[|route| - 1];
      RouteLowerBound(links, weights, source, distance, visited, best, route[..|route| - 1], Tail(links, last));
      assert last.index < |weights| ==> weights[last.index] in weights;
    }
  }

  lemma NearestTargetIsMinimal(
    links: seq<Link>, weights: seq<real>, source: Id, distance: map<Id, real>, visited: set<Id>, target: Id)
    requires source in distance && Explored(links, distance, visited)
    requires NonNegative(weights) && Settled(links, weights, source, distance, visited)
    requires target in distance.Keys - visited
    requires forall u <- distance.Keys - visited :: distance[target] <= distance[u]
    ensures Minimal(links, weights, source, target, distance[target])
  {
    forall route | Route(links, route, source, target) ensures distance[target] <= Total(weights, route) {
      RouteLowerBound(links, weights, source, distance, visited, distance[target], route, target);
    }
  }

  /** The scan over the distance map, in whatever order the map is enumerated. */
  method SelectNearest(distance: map<Id, real>, visited: set<Id>) returns (current: Option<Id>)
    ensures current.None? <==> distance.Keys <= visited
    ensures current.Some? ==> current.value in distance.Keys - visited
    ensures current.Some? ==> forall u <- distance.Keys - visited :: distance[current.value] <= distance[u]
  {
    current := None;
    var todo := distance.Keys;
    while todo != {}
      invariant todo <= distance.Keys
      invariant current.None? <==> distance.Keys - todo <= visited
      invariant current.Some? ==> current.value in distance.Keys - visited
      invariant current.Some? ==> forall u <- distance.Keys - todo - visited :: distance[current.value] <= distance[u]
    {
      var node :| node in todo;
      todo := todo - {node};
      if node !in visited && (current.None? || distance[node] < distance[current.value]) {
        current := Some(node);
      }
    }
  }

  /** `e` leads from `current` to a node without a label or with a worse one. */
  predicate Improves(d: map<Id, real>, current: Id, e: Edge) {
    current in d && (e.to !in d || d[current] + e.seconds < d[e.to])
  }

  function Improved(d: map<Id, real>, current: Id, e: Edge): map<Id, real> {
    if Improves(d, current, e) then d[e.to := d[current] + e.seconds] else d
  }

  function ImprovedCost(d: map<Id, real>, cost: map<Id, real>, current: Id, e: Edge): map<Id, real> {
    if Improves(d, current, e) && current in cost then cost[e.to := cost[current] + e.cost] else cost
  }

  function ImprovedPaths(d: map<Id, real>, paths: map<Id, seq<nat>>, current: Id, e: Edge): map<Id, seq<nat>> {
    if Improves(d, current, e) && current in paths then paths[e.to := paths[current] + [e.crossing.index]] else paths
  }

  ghost function ImprovedVia(d: map<Id, real>, via: map<Id, seq<Crossing>>, current: Id, e: Edge)
    : map<Id, seq<Crossing>>
  {
    if Improves(d, current, e) && current in via then via[e.to := via[current] + [e.crossing]] else via
  }

  /** Following one more edge out of `current`. */
  lemma RelaxOne(edges: seq<Edge>, i: nat, current: Id, before: map<Id, real>, d: map<Id, real>)
    requires i < |edges| && Relaxed(edges[..i], current, before, d)
    ensures current in d
    ensures Relaxed(edges[..i + 1], current, before, Improved(d, current, edges[i]))
  {
    assert edges[..i + 1] == edges[..i] + [edges[i]];
    RelaxNext(edges[..i], edges[i], current, before, d);
  }

  lemma RelaxNext(edges: seq<Edge>, e: Edge, current: Id, before: map<Id, real>, d: map<Id, real>)
    requires Relaxed(edges, current, before, d)
    ensures current in d && Relaxed(edges + [e], current, before, Improved(d, current, e))
  {
    ReachNext(edges, e, current, before, d);
    hide Reached, Lowered, Improved;
    if forall x <- edges + [e] :: x.seconds >= 0.0 {
      assert e in edges + [e] && forall x <- edges :: x in edges + [e];
      LowerNext(edges, e, current, before, d);
    }
  }

  lemma ReachNext(edges: seq<Edge>, e: Edge, current: Id, before: map<Id, real>, d: map<Id, real>)
    requires Reached(edges, current, before, d)
    ensures current in d && Reached(edges + [e], current, before, Improved(d, current, e))
  {
    forall n ensures EndsAt(edges + [e], n) <==> EndsAt(edges, n) || e.to == n {
      assert e in edges + [e];
    }
  }

  lemma LowerNext(edges: seq<Edge>, e: Edge, current: Id, before: map<Id, real>, d: map<Id, real>)
    requires Reached(edges, current, before, d) && Lowered(edges, current, before, d) && e.seconds >= 0.0
    requires Reached(edges + [e], current, before, Improved(d, current, e))
    ensures Lowered(edges + [e], current, before, Improved(d, current, e))
  {
    assert forall x <- edges :: x.to in d;
    assert current in before && before.Keys <= d.Keys;
    hide Reached;
  }

  lemma NothingRelaxed(edges: seq<Edge>, current: Id, d: map<Id, real>)
    requires current in d
    ensures Relaxed(edges[..0], current, d, d)
  {
  }

  /** Extending the route of `current` by a usable crossing labels the crossing's head. */
  lemma LabelOne(
    links: seq<Link>, weights: seq<real>, source: Id,
    distance: map<Id, real>, via: map<Id, seq<Crossing>>, n: Id, to: Id, c: Crossing, d: real)
    requires Labels(links, weights, source, distance, via)
    requires Usable(links, c) && Tail(links, c) == n && Head(links, c) == to && n in distance
    requires d == distance[n] + WeightAt(weights, c)
    ensures Labels(links, weights, source, distance[to := d], via[to := via[n] + [c]])
  {
  }

  // ---------- resolveNetworkPath ----------

  ghost predicate Outgoing(links: seq<Link>, weights: seq<real>, prices: seq<real>, current: Id, e: Edge) {
    && Usable(links, e.crossing)
    && Tail(links, e.crossing) == current
    && e == EdgeFor(links, weights, prices, e.crossing)
  }

  lemma OutgoingIs(links: seq<Link>, weights: seq<real>, prices: seq<real>, current: Id, e: Edge)
    requires Outgoing(links, weights, prices, current, e)
    ensures Usable(links, e.crossing) && Tail(links, e.crossing) == current && Head(links, e.crossing) == e.to
    ensures e.seconds == WeightAt(weights, e.crossing) && e.cost == WeightAt(prices, e.crossing)
  {
  }

  /** The cost labels price the routes behind the distance labels. */
  ghost predicate Costs(prices: seq<real>, cost: map<Id, real>, via: map<Id, seq<Crossing>>) {
    cost.Keys == via.Keys && forall n <- cost :: cost[n] == Total(prices, via[n])
  }

  lemma CostOne(prices: seq<real>, cost: map<Id, real>, via: map<Id, seq<Crossing>>, n: Id, to: Id, c: Crossing)
    requires Costs(prices, cost, via) && n in via
    ensures Costs(prices, cost[to := cost[n] + WeightAt(prices, c)], via[to := via[n] + [c]])
  {
  }

  /** The labels after following one edge out of `current`. */
  lemma FollowedLabels(
    links: seq<Link>, weights: seq<real>, prices: seq<real>, source: Id, e: Edge, current: Id,
    distance: map<Id, real>, via: map<Id, seq<Crossing>>)
    requires Outgoing(links, weights, prices, current, e)
    requires current in distance && Labels(links, weights, source, distance, via)
    ensures Labels(links, weights, source, Improved(distance, current, e), ImprovedVia(distance, via, current, e))
  {
    OutgoingIs(links, weights, prices, current, e);
    assert current in via;
    hide Labels, Outgoing, Usable, Tail, Head, WeightAt;
    if Improves(distance, current, e) {
      LabelOne(links, weights, source, distance, via, current, e.to, e.crossing, distance[current] + e.seconds);
    }
  }

  lemma FollowedCosts(
    links: seq<Link>, weights: seq<real>, prices: seq<real>, e: Edge, current: Id,
    distance: map<Id, real>, cost: map<Id, real>, via: map<Id, seq<Crossing>>)
    requires Outgoing(links, weights, prices, current, e) && Costs(prices, cost, via)
    ensures Costs(prices, ImprovedCost(distance, cost, current, e), ImprovedVia(distance, via, current, e))
  {
    OutgoingIs(links, weights, prices, current, e);
    assert current in via <==> current in cost;
    hide Costs, Outgoing, Improves, WeightAt;
    if current in via {
      CostOne(prices, cost, via, current, e.to, e.crossing);
    }
  }

  method RelaxCosts(
    ghost links: seq<Link>, ghost weights: seq<real>, ghost prices: seq<real>, ghost source: Id,
    edges: seq<Edge>, current: Id,
    distance0: map<Id, real>, cost0: map<Id, real>, ghost via0: map<Id, seq<Crossing>>)
    returns (distance: map<Id, real>, cost: map<Id, real>, ghost via: map<Id, seq<Crossing>>)
    requires forall e <- edges :: Outgoing(links, weights, prices, current, e)
    requires current in distance0 && Labels(links, weights, source, distance0, via0) && Costs(prices, cost0, via0)
    ensures Labels(links, weights, source, distance, via) && Costs(prices, cost, via)
    ensures Relaxed(edges, current, distance0, distance)
  {
    distance, cost, via := distance0, cost0, via0;
    NothingRelaxed(edges, current, distance0);
    hide *;
    for i := 0 to |edges|
      invariant Labels(links, weights, source, distance, via) && Costs(prices, cost, via)
      invariant Relaxed(edges[..i], current, distance0, distance)
    {
      RelaxOne(edges, i, current, distance0, distance);
      FollowedLabels(links, weights, prices, source, edges[i], current, distance, via);
      FollowedCosts(links, weights, prices, edges[i], current, distance, cost, via);
      distance, cost, via := Improved(distance, current, edges[i]), ImprovedCost(distance, cost, current, edges[i]),
                             ImprovedVia(distance, via, current, edges[i]);
    }
    assert edges[..|edges|] == edges;
  }

  /**
   Time and cost of moving `bytes` from `source` to `target`.  The answer always
   belongs to a route; with non-negative latencies no route is faster.
   */
  method ResolveNetworkPath(links: seq<Link>, source: Id, target: Id, bytes: int)
    returns (seconds: real, cost: real, found: bool, ghost route: seq<Crossing>)
    ensures found <==> Reachable(links, source, target)
    ensures found ==>
              && Route(links, route, source, target)
              && seconds == Total(Seconds(links, bytes), route)
              && cost == Total(Prices(links, bytes), route)
    ensures found && NonNegative(Seconds(links, bytes)) ==>
              ShortestTime(links, Seconds(links, bytes), source, target, seconds)
    ensures !found ==> seconds == 0.0 && cost == 0.0
  {
    var weights, prices := Seconds(links, bytes), Prices(links, bytes);
    var graph := BuildGraph(links, weights, prices);
    var distance, costs := map[source := 0.0], map[source := 0.0];
    ghost var via: map<Id, seq<Crossing>> := map[source := []];
    var visited: set<Id> := {};
    while true
      invariant Labels(links, weights, source, distance, via)
      invariant Costs(prices, costs, via)
      invariant Explored(links, distance, visited) && target !in visited
      invariant distance.Keys <= Nodes(links, source)
      invariant NonNegative(weights) ==> Settled(links, weights, source, distance, visited)
      decreases Nodes(links, source) - visited
    {
      var current := SelectNearest(distance, visited);
      if current.None? {
        assert distance.Keys == visited;
        forall r | Route(links, r, source, target) ensures false {
          ExhaustedSearchIsClosed(links, source, distance, r, target);
        }
        return 0.0, 0.0, false, [];
      }
      var node := current.value;
      if node == target {
        if NonNegative(weights) {
          NearestTargetIsMinimal(links, weights, source, distance, visited, target);
        }
        return distance[node], costs[node], true, via[node];
      }
      ghost var before := distance;
      distance, costs, via :=
        RelaxCosts(links, weights, prices, source, Adjacent(graph, node), node, distance, costs, via);
      Visit(links, weights, prices, graph, source, before, distance, visited, node);
      visited := visited + {node};
    }
  }

  // ---------- shortestLinkPath ----------

  /** The path labels list the links of the routes behind the distance labels. */
  ghost predicate Paths(paths: map<Id, seq<nat>>, via: map<Id, seq<Crossing>>) {
    paths.Keys == via.Keys && forall n <- paths :: paths[n] == Indices(via[n])
  }

  lemma PathOne(paths: map<Id, seq<nat>>, via: map<Id, seq<Crossing>>, n: Id, to: Id, c: Crossing)
    requires Paths(paths, via) && n in via
    ensures Paths(paths[to := paths[n] + [c.index]], via[to := via[n] + [c]])
  {
  }

  lemma FollowedPaths(
    e: Edge, current: Id, distance: map<Id, real>, paths: map<Id, seq<nat>>, via: map<Id, seq<Crossing>>)
    requires Paths(paths, via)
    ensures Paths(ImprovedPaths(distance, paths, current, e), ImprovedVia(distance, via, current, e))
  {
    assert current in via <==> current in paths;
    hide Paths, Improves;
    if current in via {
      PathOne(paths, via, current, e.to, e.crossing);
    }
  }

  method RelaxPaths(
    ghost links: seq<Link>, ghost weights: seq<real>, ghost prices: seq<real>, ghost source: Id,
    edges: seq<Edge>, current: Id,
    distance0: map<Id, real>, paths0: map<Id, seq<nat>>, ghost via0: map<Id, seq<Crossing>>)
    returns (distance: map<Id, real>, paths: map<Id, seq<nat>>, ghost via: map<Id, seq<Crossing>>)
    requires forall e <- edges :: Outgoing(links, weights, prices, current, e)
    requires current in distance0 && Labels(links, weights, source, distance0, via0) && Paths(paths0, via0)
    ensures Labels(links, weights, source, distance, via) && Paths(paths, via)
    ensures Relaxed(edges, current, distance0, distance)
  {
    distance, paths, via := distance0, paths0, via0;
    NothingRelaxed(edges, current, distance0);
    hide *;
    for i := 0 to |edges|
      invariant Labels(links, weights, source, distance, via) && Paths(paths, via)
      invariant Relaxed(edges[..i], current, distance0, distance)
    {
      RelaxOne(edges, i, current, distance0, distance);
      FollowedLabels(links, weights, prices, source, edges[i], current, distance, via);
      FollowedPaths(edges[i], current, distance, paths, via);
      distance, paths, via := Improved(distance, current, edges[i]), ImprovedPaths(distance, paths, current, edges[i]),
                              ImprovedVia(distance, via, current, edges[i]);
    }
    assert edges[..|edges|] == edges;
  }

  /** The links of a connected route of minimal platform weight from `source` to `target`. */
  method ShortestLinkPath(links: seq<Link>, source: Id, target: Id)
    returns (path: seq<nat>, found: bool, ghost route: seq<Crossing>)
    ensures found <==> Reachable(links, source, target)
    ensures found ==> Route(links, route, source, target) && path == Indices(route)
    ensures found && NonNegative(PlatformWeights(links)) ==>
              ShortestTime(links, PlatformWeights(links), source, target, Total(PlatformWeights(links), route))
    ensures !found ==> path == []
  {
    var weights, unpriced := PlatformWeights(links), seq(|links|, _ => 0.0);
    var graph := BuildGraph(links, weights, unpriced);
    var distance := map[source := 0.0];
    var paths: map<Id, seq<nat>> := map[source := []];
    ghost var via: map<Id, seq<Crossing>> := map[source := []];
    var visited: set<Id> := {};
    while true
      invariant Labels(links, weights, source, distance, via)
      invariant Paths(paths, via)
      invariant Explored(links, distance, visited) && target !in visited
      invariant distance.Keys <= Nodes(links, source)
      invariant NonNegative(weights) ==> Settled(links, weights, source, distance, visited)
      decreases Nodes(links, source) - visited
    {
      var current := SelectNearest(distance, visited);
      if current.None? {
        assert distance.Keys == visited;
        forall r | Route(links, r, source, target) ensures false {
          ExhaustedSearchIsClosed(links, source, distance, r, target);
        }
        return [], false, [];
      }
      var node := current.value;
      if node == target {
        if NonNegative(weights) {
          NearestTargetIsMinimal(links, weights, source, distance, visited, target);
        }
        return paths[node], true, via[node];
      }
      ghost var before := distance;
      distance, paths, via :=
        RelaxPaths(links, weights, unpriced, source, Adjacent(graph, node), node, distance, paths, via);
      Visit(links, weights, unpriced, graph, source, before, distance, visited, node);
      visited := visited + {node};
    }
  }

  // ---------- Laws ----------

  /** The time of a transfer does not depend on how ties between routes are broken. */
  lemma ShortestTimeIsUnique(links: seq<Link>, weights: seq<real>, a: Id, b: Id, t: real, t': real)
    requires ShortestTime(links, weights, a, b, t) && ShortestTime(links, weights, a, b, t')
    ensures t == t'
  {
  }

  /** Only latencies decide whether transfer times are non-negative. */
  lemma NonNegativeLatencies(links: seq<Link>, bytes: int)
    requires forall l <- links :: l.latency >= 0.0
    ensures NonNegative(Seconds(links, bytes)) && NonNegative(PlatformWeights(links))
  {
  }

  /** The two searches weigh a link alike exactly when its bandwidth is at least one bit per second. */
  lemma WeightsAgree(l: Link)
    requires l.latency >= 0.0
    ensures PlatformWeight(l) == TransferSeconds(l, 1) <==> l.bandwidth >= 1.0
  {
  }

  /** At half a bit per second the platform takes a byte to be twice as fast as the simulator. */
  lemma HalfABitPerSecond()
    ensures var l := Link("a", "b", 0.5, 0.0, 0.0, false);
            PlatformWeight(l) == 8.0 && TransferSeconds(l, 1) == 16.0
  {
  }

  /** Fast links: a time is shortest for the platform exactly when it is shortest for one simulated byte. */
  lemma SearchesAgree(links: seq<Link>, a: Id, b: Id, t: real)
    requires forall l <- links :: l.latency >= 0.0 && l.bandwidth >= 1.0
    ensures ShortestTime(links, PlatformWeights(links), a, b, t) <==> ShortestTime(links, Seconds(links, 1), a, b, t)
  {
    forall i | 0 <= i < |links| ensures PlatformWeights(links)[i] == Seconds(links, 1)[i] {
      assert links[i] in links;
      WeightsAgree(links[i]);
    }
    assert PlatformWeights(links) == Seconds(links, 1);
  }
}
