/** What routes take and cost, in the fields of the links they cross. */
module NetworkLaws {
  import opened Graphs
  import opened Network

  // ---------- One link ----------

  /** A link needs its latency and then eight bits per byte at its bandwidth; a dead link moves data at once. */
  lemma LinkSeconds(l: Link, bytes: int)
    ensures bytes <= 0 ==> TransferSeconds(l, bytes) == l.latency
    ensures bytes > 0 && l.bandwidth > 0.0 ==>
              (TransferSeconds(l, bytes) - l.latency) * l.bandwidth == 8.0 * bytes as real
    ensures bytes > 0 && l.bandwidth <= 0.0 ==> TransferSeconds(l, bytes) == 0.0
  {
  }

  /** The platform weighs a link like one byte, and takes no link to be slower than one bit per second. */
  lemma LinkWeight(l: Link)
    ensures l.bandwidth > 1.0 ==> (PlatformWeight(l) - l.latency) * l.bandwidth == 8.0
    ensures l.bandwidth <= 1.0 ==> PlatformWeight(l) == l.latency + 8.0
  {
  }

  // ---------- One route ----------

  function Latencies(links: seq<Link>): seq<real> {
    seq(|links|, i requires 0 <= i < |links| => links[i].latency)
  }

  function BytePrices(links: seq<Link>): seq<real> {
    seq(|links|, i requires 0 <= i < |links| => links[i].pricePerByte)
  }

  ghost predicate Alive(links: seq<Link>) {
    forall l <- links :: l.bandwidth > 0.0
  }

  lemma LinkIsAdditive(l: Link, m: int, n: int)
    requires l.bandwidth > 0.0 && m >= 0 && n >= 0
    ensures TransferSeconds(l, m + n) + l.latency == TransferSeconds(l, m) + TransferSeconds(l, n)
  {
    if m > 0 && n > 0 {
      assert (m + n) as real == m as real + n as real;
    }
  }

  /** Beyond the latencies, which every transfer pays once, the time of a route is additive in the bytes. */
  lemma {:induction false} TimeIsAdditive(links: seq<Link>, route: seq<Crossing>, a: Id, b: Id, m: int, n: int)
    requires Route(links, route, a, b) && Alive(links) && m >= 0 && n >= 0
    ensures Total(Seconds(links, m + n), route) + Total(Latencies(links), route)
         == Total(Seconds(links, m), route) + Total(Seconds(links, n), route)
  {
    if route != [] {
      var last := route[|route| - 1];
      assert links[last.index] in links;
      LinkIsAdditive(links[last.index], m, n);
      TimeIsAdditive(links, route[..|route| - 1], a, Tail(links, last), m, n);
    }
  }

  lemma PriceStep(bytes: real, before: real, price: real)
    ensures bytes * before + bytes * price == bytes * (before + price)
  {
  }

  lemma LastCrossing(links: seq<Link>, route: seq<Crossing>, a: Id, b: Id, bytes: int)
    requires Route(links, route, a, b) && route != []
    ensures var n := |route| - 1;
            var price := if route[n].index < |links| then links[route[n].index].pricePerByte else 0.0;
            && Usable(links, route[n]) && Route(links, route[..n], a, Tail(links, route[n]))
            && Total(Prices(links, bytes), route) == Total(Prices(links, bytes), route[..n]) + bytes as real * price
            && Total(BytePrices(links), route) == Total(BytePrices(links), route[..n]) + price
  {
  }

  /** Every byte pays the price of every link of its route. */
  lemma {:induction false} CostIsPerByte(links: seq<Link>, route: seq<Crossing>, a: Id, b: Id, bytes: int)
    requires Route(links, route, a, b)
    ensures Total(Prices(links, bytes), route) == bytes as real * Total(BytePrices(links), route)
  {
    if route != [] {
      hide *;
      var n := |route| - 1;
      LastCrossing(links, route, a, b, bytes);
      CostIsPerByte(links, route[..n], a, Tail(links, route[n]), bytes);
      PriceStep(bytes as real, Total(BytePrices(links), route[..n]),
                if route[n].index < |links| then links[route[n].index].pricePerByte else 0.0);
    }
  }

  // ---------- Shortest times ----------

  lemma {:induction false} TotalGrows(weights: seq<real>, more: seq<real>, route: seq<Crossing>)
    requires |weights| == |more| && forall i :: 0 <= i < |weights| ==> weights[i] <= more[i]
    ensures Total(weights, route) <= Total(more, route)
  {
    if route != [] {
      TotalGrows(weights, more, route[..|route| - 1]);
    }
  }

  lemma LinkGrows(l: Link, m: int, n: int)
    requires l.bandwidth > 0.0 && m <= n
    ensures TransferSeconds(l, m) <= TransferSeconds(l, n)
  {
    if n > 0 {
      LinkSeconds(l, m);
      LinkSeconds(l, n);
      Cancel(TransferSeconds(l, m) - l.latency, TransferSeconds(l, n) - l.latency, l.bandwidth);
    }
  }

  lemma Cancel(x: real, y: real, d: real)
    requires d > 0.0 && (x * d <= y * d || (x == 0.0 && y * d >= 0.0))
    ensures x <= y
  {
  }

  /** More data never arrives sooner, whatever routes are fastest for either amount. */
  lemma MoreBytesTakeLonger(links: seq<Link>, a: Id, b: Id, m: int, n: int, t: real, t': real)
    requires Alive(links) && m <= n
    requires ShortestTime(links, Seconds(links, m), a, b, t) && ShortestTime(links, Seconds(links, n), a, b, t')
    ensures t <= t'
  {
    var route :| Route(links, route, a, b) && Total(Seconds(links, n), route) == t';
    forall i | 0 <= i < |links| ensures Seconds(links, m)[i] <= Seconds(links, n)[i] {
      assert links[i] in links;
      LinkGrows(links[i], m, n);
    }
    TotalGrows(Seconds(links, m), Seconds(links, n), route);
  }

  // ---------- A network of one link ----------

  lemma {:induction false} OneLinkRoute(l: Link, weights: seq<real>, route: seq<Crossing>, a: Id, b: Id)
    requires |weights| == 1 && weights[0] >= 0.0 && Route([l], route, a, b)
    ensures |route| == 1 ==> Total(weights, route) == weights[0]
    ensures |route| >= 2 ==> Total(weights, route) >= weights[0] + weights[0]
    ensures Total(weights, route) >= 0.0
  {
    if route != [] {
      var last := route[|route| - 1];
      OneLinkRoute(l, weights, route[..|route| - 1], a, Tail([l], last));
    }
  }

  /** A shortest route between the ends of the only link crosses it once. */
  lemma CrossedOnce(l: Link, weights: seq<real>, route: seq<Crossing>)
    requires |weights| == 1 && weights[0] > 0.0 && l.source != l.target && Route([l], route, l.source, l.target)
    requires Minimal([l], weights, l.source, l.target, Total(weights, route))
    ensures |route| == 1
  {
    var direct := [Crossing(0, false)];
    assert Route([l], direct[..0], l.source, l.source);
    assert Route([l], direct, l.source, l.target);
    assert Total(weights, direct) == weights[0];
    OneLinkRoute(l, weights, route, l.source, l.target);
  }

  /** What the search answers for the only link between two nodes, in the fields of the link. */
  lemma OneLinkAnswer(l: Link, bytes: int, route: seq<Crossing>, seconds: real, cost: real)
    requires l.source != l.target && l.latency >= 0.0 && l.bandwidth > 0.0 && bytes > 0
    requires Route([l], route, l.source, l.target) && Minimal([l], Seconds([l], bytes), l.source, l.target, seconds)
    requires seconds == Total(Seconds([l], bytes), route) && cost == Total(Prices([l], bytes), route)
    ensures seconds * l.bandwidth == l.latency * l.bandwidth + 8.0 * bytes as real
    ensures cost == bytes as real * l.pricePerByte
  {
    LinkSeconds(l, bytes);
    hide TransferSeconds;
    PositiveTime(TransferSeconds(l, bytes), l.latency, l.bandwidth, 8.0 * bytes as real);
    CrossedOnce(l, Seconds([l], bytes), route);
    hide Minimal, Route;
    assert route[..0] == [];
  }

  lemma PositiveTime(t: real, latency: real, bandwidth: real, bits: real)
    requires latency >= 0.0 && bandwidth > 0.0 && bits > 0.0 && (t - latency) * bandwidth == bits
    ensures t > 0.0 && t * bandwidth == latency * bandwidth + bits
  {
  }
}
