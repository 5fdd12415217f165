/** What a path costs a traffic class: for each link one, plus its measurements weighted by the class's
    objective. The search finds the cheapest path in these terms, and a stored path is judged in them. */
module Objectives {
  import opened FiniteSums
  import opened Topology
  import opened Ledger
  import opened BandwidthRegistry
  import opened Cspf
  import opened Pricing
  import opened Pce
  import opened PceRuns

  /** The link is measured, and none of the dimensions the class weighs is infinite. */
  ghost predicate Usable(o: Objective, costs: CostGraph, l: LinkId) {
    l in costs && forall d :: d in o && d in costs[l] ==> costs[l][d].Finite?
  }

  /** One plus the measured dimensions, each times its weight. */
  ghost function Price(o: Objective, costs: CostGraph, l: LinkId): real
    requires Usable(o, costs, l)
  {
    1.0 + Sum(o.Keys * costs[l].Keys, (d: Dimension) => if d in o && d in costs[l] && costs[l][d].Finite? then o[d] * costs[l][d].v else 0.0)
  }

  ghost predicate Passable(o: Objective, costs: CostGraph, edges: seq<PceEdgeId>) {
    forall id :: id in edges ==> Usable(o, costs, id.link)
  }

  ghost function Total(price: PceEdgeId -> real, edges: seq<PceEdgeId>): real {
    if edges == [] then 0.0 else Total(price, edges[..|edges| - 1]) + price(edges[|edges| - 1])
  }

  ghost function LinkPrices(o: Objective, costs: CostGraph): PceEdgeId -> real {
    (id: PceEdgeId) => if Usable(o, costs, id.link) then Price(o, costs, id.link) else 0.0
  }

  /** What the links of a path add up to. */
  ghost function Bill(o: Objective, costs: CostGraph, edges: seq<PceEdgeId>): real {
    Total(LinkPrices(o, costs), edges)
  }

  // ---------- One edge ----------

  lemma WeightIsPrice(o: Objective, costs: CostGraph, l: LinkId, link: Edge)
    requires link.id == l
    ensures WeightedCost(o, EdgeCost([link], costs)) == if Usable(o, costs, l) then Finite(Price(o, costs, l)) else Inf
  {
    assert [link][..0] == [];
    assert EdgeCost([link], costs) == if l in costs then Some(costs[l]) else None;
    if l in costs {
      WeightedCostIsSum(o, costs[l]);
      if Usable(o, costs, l) {
        var f := (d: Dimension) => if d in o && d in costs[l] && costs[l][d].Finite? then o[d] * costs[l][d].v else 0.0;
        assert (set d | d in o && d in costs[l]) == o.Keys * costs[l].Keys;
        SumSame(o.Keys * costs[l].Keys, f, Contributions(o, costs[l]));
      }
    }
  }

  /** A graph whose edges are single links, as the controller builds them. */
  ghost predicate OneLinkEach(links: map<LinkId, Edge>, g: PceGraph) {
    forall id :: id in g.edges ==> id.link in links && g.edges[id] == LinkEdge(links[id.link])
  }

  /** The weight of an edge is its link's price, and infinite exactly when the link is unusable. */
  lemma EdgeWeightIsPrice(links: map<LinkId, Edge>, g: PceGraph, costs: CostGraph, o: Objective, id: PceEdgeId)
    requires ValidLinks(links) && OneLinkEach(links, g) && id in g.edges
    ensures EdgeWeights(g, costs, o)[id] == if Usable(o, costs, id.link) then Finite(Price(o, costs, id.link)) else Inf
  {
    WeightIsPrice(o, costs, id.link, links[id.link]);
  }

  // ---------- A walk ----------

  lemma {:induction false} WalkCostIsTotal(weights: Weights, usable: PceEdgeId -> bool, price: PceEdgeId -> real, edges: seq<PceEdgeId>)
    requires forall id :: id in edges ==> id in weights && weights[id] == if usable(id) then Finite(price(id)) else Inf
    ensures WalkCost(weights, edges) == if forall id :: id in edges ==> usable(id) then Finite(Total(price, edges)) else Inf
    decreases |edges|
  {
    if edges != [] {
      var n := |edges| - 1;
      assert edges == edges[..n] + [edges[n]];
      WalkCostIsTotal(weights, usable, price, edges[..n]);
    }
  }

  lemma WalkCostIsBill(links: map<LinkId, Edge>, g: PceGraph, costs: CostGraph, o: Objective, edges: seq<PceEdgeId>)
    requires ValidLinks(links) && OneLinkEach(links, g) && forall id :: id in edges ==> id in g.edges
    ensures WalkCost(EdgeWeights(g, costs, o), edges) == if Passable(o, costs, edges) then Finite(Bill(o, costs, edges)) else Inf
  {
    var usable := (id: PceEdgeId) => Usable(o, costs, id.link);
    forall id | id in edges
      ensures EdgeWeights(g, costs, o)[id] == if usable(id) then Finite(LinkPrices(o, costs)(id)) else Inf
    {
      EdgeWeightIsPrice(links, g, costs, o, id);
    }
    WalkCostIsTotal(EdgeWeights(g, costs, o), usable, LinkPrices(o, costs), edges);
  }

  // ---------- The search ----------

  /** The result of a search, said without weights: the path found is passable, costs what its links
      add up to, and no passable walk is cheaper; when none is found, no walk is passable. */
  ghost predicate Cheapest(g: PceGraph, costs: CostGraph, o: Objective, from: NodeId, to: NodeId, r: Result<Path>) {
    match r
    case Ok(p) =>
      && Walk(g, from, p.edges, to) && Passable(o, costs, p.edges) && p.cost == Bill(o, costs, p.edges)
      && (forall q :: Walk(g, from, q, to) && Passable(o, costs, q) ==> p.cost <= Bill(o, costs, q))
    case Err(UnknownNode) => from !in g.nodes || to !in g.nodes
    case Err(NoPath) => forall q :: Walk(g, from, q, to) ==> !Passable(o, costs, q)
  }

  lemma ShortestIsCheapest(links: map<LinkId, Edge>, g: PceGraph, costs: CostGraph, o: Objective, from: NodeId, to: NodeId, r: Result<Path>)
    requires ValidLinks(links) && OneLinkEach(links, g) && Shortest(g, EdgeWeights(g, costs, o), from, to, r)
    ensures Cheapest(g, costs, o, from, to, r)
  {
    if r.Ok? {
      WalkCostIsBill(links, g, costs, o, r.value.edges);
    }
    forall q | Walk(g, from, q, to)
      ensures forall id :: id in q ==> id in g.edges
      ensures WalkCost(EdgeWeights(g, costs, o), q) == if Passable(o, costs, q) then Finite(Bill(o, costs, q)) else Inf
    {
      WalkEdges(g, from, q, to);
      WalkCostIsBill(links, g, costs, o, q);
    }
  }

  lemma PrunedHasOneLinkEach(w: World, t: Tick, d: Demand, reg: Registry, pruned: PceGraph)
    requires ValidTick(w, t) && IsPruned(w.hose, reg, t.graph, KeyOf(d), pruned)
    ensures OneLinkEach(w.links, pruned)
  {
  }

  lemma FoundIsCheapest(w: World, t: Tick, d: Demand, reg: Registry, pruned: PceGraph, costs: CostGraph, found: Result<Path>)
    requires ValidWorld(w) && ValidTick(w, t) && IsPruned(w.hose, reg, t.graph, KeyOf(d), pruned)
    requires Shortest(pruned, EdgeWeights(pruned, costs, d.objective), d.from, d.to, found)
    ensures Cheapest(pruned, costs, d.objective, d.from, d.to, found)
  {
    PrunedHasOneLinkEach(w, t, d, reg, pruned);
    ShortestIsCheapest(w.links, pruned, costs, d.objective, d.from, d.to, found);
  }

  /** Whenever a demand is served, the path found for it is the cheapest walk of the pruned graph in
      terms of its own class's objective and the costs at that moment. */
  lemma ServedFindsCheapest(w: World, t: Tick, d: Demand, ev: Event, s: State, s': State)
    requires ValidWorld(w) && ValidTick(w, t) && Served(w, t, d, ev, s, s')
    ensures Cheapest(ev.pruned, Observed(s.costs, ev.telemetry), d.objective, d.from, d.to, ev.found)
  {
    FoundIsCheapest(w, t, d, s.registry, ev.pruned, Observed(s.costs, ev.telemetry), ev.found);
  }

  /** And so it is for every demand of every run. */
  lemma RunsFindCheapest(w: World, states: seq<State>, ticks: seq<Record>, i: nat, j: nat)
    requires Run(w, states, ticks) && i < |ticks| && j < |ticks[i].demands|
    ensures |ticks[i].demands| == |ticks[i].events| && |ticks[i].mids| == |ticks[i].demands| + 1
    ensures var d, ev, s := ticks[i].demands[j], ticks[i].events[j], ticks[i].mids[j];
            Cheapest(ev.pruned, Observed(s.costs, ev.telemetry), d.objective, d.from, d.to, ev.found)
  {
    RunMeets(w, states, ticks, i, j);
    assert StepAt(w, states, ticks, i);
    ServedFindsCheapest(w, ticks[i].tick, ticks[i].demands[j], ticks[i].events[j], ticks[i].mids[j], ticks[i].mids[j + 1]);
  }

  lemma {:induction false} LinksOneByOne(links: map<LinkId, Edge>, g: PceGraph, edges: seq<PceEdgeId>)
    requires ValidLinks(links) && OneLinkEach(links, g) && forall id :: id in edges ==> id in g.edges
    ensures |LinksAlong(g, edges)| == |edges|
    ensures forall i :: 0 <= i < |edges| ==> LinksAlong(g, edges)[i] == edges[i].link
    decreases |edges|
  {
    if edges != [] {
      LinksOneByOne(links, g, edges[1..]);
      var members := g.edges[edges[0]].realEdges;
      assert members == [links[edges[0].link]] && members[1..] == [];
      assert ReversedLinks(members) == [edges[0].link];
    }
  }

  /** The links of a path found are those of its edges, in order. */
  lemma FoundLinks(w: World, t: Tick, d: Demand, ev: Event, s: State, s': State)
    requires ValidWorld(w) && ValidTick(w, t) && Served(w, t, d, ev, s, s') && ev.found.Ok?
    ensures var p := ev.found.value;
            |p.links| == |p.edges| && forall i :: 0 <= i < |p.edges| ==> p.links[i] == p.edges[i].link
  {
    PrunedHasOneLinkEach(w, t, d, s.registry, ev.pruned);
    LinksOneByOne(w.links, ev.pruned, ev.found.value.edges);
  }

  /** What those costs are: a link keeps its entry, a new measurement wins in every dimension but the
      reserved-bandwidth one, and no measurement adds a link or that dimension. */
  lemma ObservedIs(costs: CostGraph, telemetry: CostGraph, l: LinkId, d: Dimension)
    ensures l in Observed(costs, telemetry) <==> l in costs
    ensures l in costs ==> var c := Observed(costs, telemetry)[l];
              if d != StaticUtilization && l in telemetry && d in telemetry[l]
              then d in c && c[d] == telemetry[l][d]
              else (d in c <==> d in costs[l]) && (d in c ==> c[d] == costs[l][d])
  {
  }

  // ---------- The stored path ----------

  /** The score of a stored path: its links added up on the snapshot, infinite exactly when a link has
      left the graph or is unusable. */
  lemma ScoreIsBill(w: World, t: Tick, d: Demand)
    requires ValidWorld(w) && ValidTick(w, t) && KeyOf(d) in t.previous
    ensures var edges := t.previous[KeyOf(d)].edges;
            Score(t, d) == if (forall id :: id in edges ==> id in t.graph.edges) && Passable(d.objective, t.snapshot, edges)
                           then Finite(Bill(d.objective, t.snapshot, edges)) else Inf
  {
    var edges := t.previous[KeyOf(d)].edges;
    assert OneLinkEach(w.links, t.graph);
    if forall id :: id in edges ==> id in t.graph.edges {
      WalkCostIsBill(w.links, t.graph, t.snapshot, d.objective, edges);
    }
  }

  /** A path just found, rescored on the costs it was found with, costs what it was found to cost. */
  lemma FoundPathRescored(w: World, t: Tick, d: Demand, ev: Event, s: State, s': State)
    requires ValidWorld(w) && ValidTick(w, t) && Served(w, t, d, ev, s, s') && ev.found.Ok?
    ensures var costs := Observed(s.costs, ev.telemetry);
            Rescored(t.graph, EdgeWeights(t.graph, costs, d.objective), ev.found.value.edges) == Finite(ev.found.value.cost)
  {
    var costs, p := Observed(s.costs, ev.telemetry), ev.found.value;
    ServedFindsCheapest(w, t, d, ev, s, s');
    WalkEdges(ev.pruned, d.from, p.edges, d.to);
    assert OneLinkEach(w.links, t.graph);
    WalkCostIsBill(w.links, t.graph, costs, d.objective, p.edges);
  }

  lemma DecidedCost(previous: Option<Path>, score: Cost, p: Path, color: Color, last: Option<int>, now: int, hold: int)
    ensures var decision, q := Decide(previous, score, Ok(p), color, last, now, hold), p.(color := color);
            && !decision.Leave?
            && (Wins(previous, score, q, last, now, hold) ==> decision.path == q)
            && (!Wins(previous, score, q, last, now, hold) ==> score.Finite? && decision.path == previous.value.(cost := score.v))
  {
  }

  /** The cost kept with a served demand's path: that of the search if the path found is taken, else
      the score on the snapshot. */
  lemma StoredCost(w: World, t: Tick, d: Demand, ev: Event, s: State, s': State)
    requires ValidWorld(w) && ValidTick(w, t) && ValidDemand(w.hose, d) && NonNegativeCosts(ev.telemetry)
    requires Inv(w, s) && SameAt(t.previous, s.paths, KeyOf(d)) && Served(w, t, d, ev, s, s') && ev.found.Ok?
    ensures var p, k := ev.found.value.(color := d.color), KeyOf(d);
            && k in s'.paths
            && (TakesOver(w, t, d, s, p) ==> s'.paths[k] == p && p.cost == Bill(d.objective, Observed(s.costs, ev.telemetry), p.edges))
            && (!TakesOver(w, t, d, s, p) ==> k in s.paths && s'.paths[k] == s.paths[k].(cost := Bill(d.objective, t.snapshot, s.paths[k].edges)))
  {
    FoundPathsAreAdmitted(w, t, d, ev, s, s');
    ServedFindsCheapest(w, t, d, ev, s, s');
    if KeyOf(d) in t.previous {
      ScoreIsBill(w, t, d);
    }
    CostOnceAdmitted(w, t, d, s, s.(costs := Observed(s.costs, ev.telemetry)), s', ev.found.value);
  }

  lemma CostOnceAdmitted(w: World, t: Tick, d: Demand, s: State, seen: State, s': State, p: Path)
    requires SameAt(t.previous, s.paths, KeyOf(d)) && seen.registry == s.registry
    requires Carried(w, t, d, Decided(w, t, d, s, Ok(p)), seen, s')
    requires AllFit(w.hose, s.registry, t.graph, p.edges, KeyOf(d))
    ensures KeyOf(d) in s'.paths
    ensures TakesOver(w, t, d, s, p.(color := d.color)) ==> s'.paths[KeyOf(d)] == p.(color := d.color)
    ensures !TakesOver(w, t, d, s, p.(color := d.color)) ==>
              KeyOf(d) in s.paths && Score(t, d).Finite? && s'.paths[KeyOf(d)] == s.paths[KeyOf(d)].(cost := Score(t, d).v)
  {
    DecidedCost(Find(t.previous, KeyOf(d)), Score(t, d), p, d.color, Find(s.lastReroute, KeyOf(d)), t.now, w.holdDown);
    CarriedRoute(w, t, d, Decided(w, t, d, s, Ok(p)), seen, s', p);
  }
}
