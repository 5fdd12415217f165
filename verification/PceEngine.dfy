/** The tick loop of the path computation element, step by step, proved against `Pce.Ticked`. */
module PceEngine {
  import opened Topology
  import opened Hose
  import opened Ledger
  import opened BandwidthRegistry
  import opened Admission
  import opened Cspf
  import opened Pricing
  import opened Pce
  import opened PceRuns
  import opened Objectives

  /** A link silent for this long, in seconds, is taken to be down. */
  const LINK_STALE_AFTER := 15

  /** `updateLinkStates`: a link that has been probed is up exactly while it has not gone quiet; one
      that was never probed keeps its state. */
  method UpdateLinkStates(links: map<LinkId, Edge>, up: set<LinkId>, lastSeen: map<LinkId, int>, now: int)
    returns (up': set<LinkId>)
    ensures forall l :: l in up' <==>
              if l in links && l in lastSeen then now - lastSeen[l] < LINK_STALE_AFTER else l in up
  {
    up' := up;
    var todo := links.Keys;
    while todo != {}
      invariant todo <= links.Keys
      invariant forall l :: l in up' <==>
        if l in links && l !in todo && l in lastSeen then now - lastSeen[l] < LINK_STALE_AFTER else l in up
    {
      var l :| l in todo;
      todo := todo - {l};
      if l in lastSeen {
        var alive := now - lastSeen[l] < LINK_STALE_AFTER;
        if alive != (l in up') {
          up' := if alive then up' + {l} else up' - {l};
        }
      }
    }
  }

  /** `rescorePath`. */
  method RescorePath(edges: seq<PceEdgeId>, g: PceGraph, weights: Weights) returns (total: Cost)
    requires weights.Keys == g.edges.Keys
    ensures total == Rescored(g, weights, edges)
  {
    total := Finite(0.0);
    var i := 0;
    while i < |edges|
      invariant 0 <= i <= |edges|
      invariant forall id :: id in edges[..i] ==> id in g.edges
      invariant total == WalkCost(weights, edges[..i])
    {
      if edges[i] !in g.edges {
        assert edges[i] in edges;
        return Inf;
      }
      assert edges[..i + 1][..i] == edges[..i];
      total := Add(total, weights[edges[i]]);
      i := i + 1;
    }
    assert edges[..i] == edges;
  }

  function LoadIn(reserved: map<PceEdgeId, real>, id: PceEdgeId): real {
    if id in reserved then reserved[id] else 0.0
  }

  lemma ReservedReads(h: Hose, reg: Registry, reserved: map<PceEdgeId, real>)
    requires reserved.Keys == reg.Keys && forall e :: e in reserved ==> reserved[e] == Load(h, Booked(reg, e))
    ensures forall e :: LoadIn(reserved, e) == Load(h, Booked(reg, e))
  {
    assert TenantsOf({}) == {};
  }

  /** The costs once the edges outside `todo` have been priced. */
  ghost function PricedBut(w: World, g: PceGraph, reserved: map<PceEdgeId, real>, costs: CostGraph, todo: set<PceEdgeId>): CostGraph {
    map l | l in costs ::
      if l in w.links && LinkEdgeId(w.links[l]) in g.edges && LinkEdgeId(w.links[l]) !in todo
      then costs[l][StaticUtilization := ReservedCost(LoadIn(reserved, LinkEdgeId(w.links[l])), w.links[l].bandwidth)]
      else costs[l]
  }

  lemma PriceOne(w: World, t: Tick, reserved: map<PceEdgeId, real>, costs: CostGraph, todo: set<PceEdgeId>, id: PceEdgeId)
    requires ValidWorld(w) && ValidTick(w, t) && id in t.graph.edges && id in todo
    ensures var e := w.links[id.link];
            var before := PricedBut(w, t.graph, reserved, costs, todo);
            PricedBut(w, t.graph, reserved, costs, todo - {id}) ==
            if e.id in before
            then before[e.id := before[e.id][StaticUtilization := ReservedCost(LoadIn(reserved, id), e.bandwidth)]]
            else before
  {
    assert t.graph.edges[id] == LinkEdge(w.links[id.link]) && t.graph.edges[id].id == id;
  }

  lemma PriceEnds(w: World, g: PceGraph, reserved: map<PceEdgeId, real>, costs: CostGraph, reg: Registry)
    requires forall e :: LoadIn(reserved, e) == Load(w.hose, Booked(reg, e))
    ensures PricedBut(w, g, reserved, costs, g.edges.Keys) == costs
    ensures PricedBut(w, g, reserved, costs, {}) == Priced(w, g, reg, costs)
  {
  }

  method PriceLinks(g: PceGraph, reserved: map<PceEdgeId, real>, costs0: CostGraph, ghost w: World, ghost t: Tick, ghost reg: Registry)
    returns (costs: CostGraph)
    requires ValidWorld(w) && ValidTick(w, t) && t.graph == g
    requires forall e :: LoadIn(reserved, e) == Load(w.hose, Booked(reg, e))
    ensures costs == Priced(w, g, reg, costs0)
  {
    costs := costs0;
    var todo := g.edges.Keys;
    PriceEnds(w, g, reserved, costs0, reg);
    while todo != {}
      invariant todo <= g.edges.Keys
      invariant costs == PricedBut(w, g, reserved, costs0, todo)
    {
      var id :| id in todo;
      PriceOne(w, t, reserved, costs0, todo, id);
      assert g.edges[id] == LinkEdge(w.links[id.link]);
      todo := todo - {id};
      var e := g.edges[id].realEdges[0];
      if e.id in costs {
        costs := costs[e.id := costs[e.id][StaticUtilization := ReservedCost(LoadIn(reserved, id), e.bandwidth)]];
      }
    }
  }

  class PathComputationElement {
    const ledger: BandwidthReservationRegistry
    const holdDown: int
    var paths: map<PathKey, Path>
    var lastReroute: map<PathKey, int>
    var costs: CostGraph
    var up: set<LinkId>

    ghost function Now(): State
      reads this, ledger
    {
      State(ledger.registry, paths, lastReroute, costs)
    }

    constructor (holdDown: int, costs: CostGraph, up: set<LinkId>)
      ensures this.holdDown == holdDown && this.up == up && fresh(ledger)
      ensures Now() == State(map[], map[], map[], costs)
    {
      ledger := new BandwidthReservationRegistry();
      this.holdDown, this.costs, this.up := holdDown, costs, up;
      paths, lastReroute := map[], map[];
    }

    /** `updateStaticBandwidthUtilizationCost`. */
    method UpdateStaticCosts(g: PceGraph, ghost w: World, ghost t: Tick)
      requires Consistent(w.hose, ledger.registry) && ValidWorld(w) && ValidTick(w, t) && t.graph == g
      modifies this`costs
      ensures costs == Priced(w, g, ledger.registry, old(costs))
    {
      var reserved := ledger.ReservedMap(w.hose);
      ReservedReads(w.hose, ledger.registry, reserved);
      costs := PriceLinks(g, reserved, costs, w, t, ledger.registry);
    }
  
    /** Books `computed` for the demand, releasing what `release` held. */
    method Switch(t: Tick, d: Demand, release: seq<PceEdgeId>, computed: Path, reroute: bool, ghost w: World)
      requires ValidWorld(w) && ValidTick(w, t) && ValidDemand(w.hose, d) && Consistent(w.hose, ledger.registry)
      requires forall id :: id in computed.edges ==> id in t.graph.edges
      requires AllFit(w.hose, ledger.registry, t.graph, computed.edges, KeyOf(d))
      modifies this`paths, this`lastReroute, this`costs, ledger
      ensures Carried(w, t, d, Decision.Switch(release, computed, reroute), old(Now()), Now())
    {
      var edges := EdgesAt(t.graph, computed.edges);
      var ok := ledger.Move(release, edges, d.tenant, ReservationOf(d), w.hose);
      if ok {
        MoveStaysConsistent(w.hose, old(ledger.registry), ledger.registry, Elems(release), Ids(edges), KeyOf(d), ReservationOf(d));
        UpdateStaticCosts(t.graph, w, t);
        if reroute {
          lastReroute := lastReroute[KeyOf(d) := t.now];
        }
        paths := paths[KeyOf(d) := computed];
      }
    }

    /** The demand loop once a path has been found: place it, keep the stored one, or switch. */
    method Settle(t: Tick, d: Demand, found: Path, ghost w: World)
      requires ValidWorld(w) && w.holdDown == holdDown && ValidTick(w, t) && ValidDemand(w.hose, d)
      requires Consistent(w.hose, ledger.registry)
      requires AllFit(w.hose, ledger.registry, t.graph, found.edges, KeyOf(d))
      modifies this`paths, this`lastReroute, this`costs, ledger
      ensures Carried(w, t, d, Decided(w, t, d, old(Now()), Ok(found)), old(Now()), Now())
    {
      var k := KeyOf(d);
      var computed := found.(color := d.color);
      if k !in t.previous {
        Switch(t, d, [], computed, false, w);
        return;
      }

      var previous := t.previous[k];
      var score := RescorePath(previous.edges, t.graph, EdgeWeights(t.graph, t.snapshot, d.objective));
      var kept := if score.Inf? then previous else previous.(cost := score.v);

      if SameRoute(previous, computed) {
        paths := paths[k := computed];
        return;
      }
      if score.Finite? && score.v < HYSTERESIS * computed.cost {
        paths := paths[k := kept];
        return;
      }
      if score.Finite? && k in lastReroute {
        if holdDown > t.now - lastReroute[k] {
          paths := paths[k := kept];
          return;
        }
      }
      Switch(t, d, previous.edges, computed, true, w);
    }

    /** The body of the demand loop. */
    method ServeDemand(t: Tick, d: Demand, telemetry: CostGraph, ghost w: World) returns (ghost ev: Event)
      requires ValidWorld(w) && w.holdDown == holdDown && ValidTick(w, t) && ValidDemand(w.hose, d)
      requires NonNegativeCosts(telemetry)
      requires Inv(w, Now())
      modifies this`paths, this`lastReroute, this`costs, ledger
      ensures Served(w, t, d, ev, old(Now()), Now())
      ensures ev.telemetry == telemetry
      ensures Cheapest(ev.pruned, Observed(old(costs), telemetry), d.objective, d.from, d.to, ev.found)
    {
      ObservedNonNegative(costs, telemetry);
      costs := Observed(costs, telemetry);
      var pruned := ledger.PruneGraph(t.graph, d.tenant, ReservationOf(d), w.hose);
      var weights := EdgeWeights(pruned, costs, d.objective);
      EdgeWeightsWeigh(pruned, costs, d.objective);
      var found := ComputePath(pruned, weights, d.from, d.to);
      ev := Event(telemetry, pruned, found);
      FoundIsCheapest(w, t, d, ledger.registry, pruned, costs, found);
      if found.Ok? {
        FoundPath(w, t, d, ledger.registry, pruned, weights, found.value);
        Settle(t, d, found.value, w);
      }
    }

    /** The start of a tick: link states, graph, prices and snapshot. */
    method BeginTick(nodes: set<NodeId>, links: map<LinkId, Edge>, lastSeen: map<LinkId, int>, telemetry: CostGraph,
                     now: int, ghost w: World) returns (t: Tick)
      requires ValidWorld(w) && w == World(w.hose, nodes, links, holdDown)
      requires Inv(w, Now()) && NonNegativeCosts(telemetry)
      modifies this`up, this`costs
      ensures Now() == old(Now()).(costs := Priced(w, t.graph, ledger.registry, Observed(old(costs), telemetry)))
      ensures ValidTick(w, t) && t.previous == paths && t.snapshot == costs && t.now == now
      ensures Inv(w, Now())
      ensures HoldsUpLinks(t.graph, links, up)
      ensures forall l :: l in up <==>
                if l in links && l in lastSeen then now - lastSeen[l] < LINK_STALE_AFTER else l in old(up)
    {
      up := UpdateLinkStates(links, up, lastSeen, now);
      var g := NewPceGraph(nodes, links, up);
      ObservedNonNegative(costs, telemetry);
      costs := Observed(costs, telemetry);
      PricedNonNegative(w, g, ledger.registry, costs);
      UpdateStaticCosts(g, w, Tick(g, paths, map[], now));
      t := Tick(g, paths, costs, now);
    }

    /** The demand loop. */
    method ServeAll(t: Tick, demands: seq<Demand>, telemetries: seq<CostGraph>, ghost w: World)
      returns (ghost events: seq<Event>, ghost mids: seq<State>)
      requires ValidWorld(w) && w.holdDown == holdDown && ValidTick(w, t) && t.previous == paths
      requires Inv(w, Now())
      requires |telemetries| == |demands|
      requires forall i :: 0 <= i < |telemetries| ==> NonNegativeCosts(telemetries[i])
      requires DistinctKeys(demands) && forall i :: 0 <= i < |demands| ==> ValidDemand(w.hose, demands[i])
      modifies this`paths, this`lastReroute, this`costs, ledger
      ensures AllServed(w, t, demands, events, mids) && AllValid(w.hose, demands, events)
      ensures mids[0] == old(Now()) && mids[|demands|] == Now()
      ensures Inv(w, Now())
    {
      events, mids := [], [Now()];
      var i := 0;
      while i < |demands|
        invariant 0 <= i <= |demands|
        invariant Progress(w, t, demands[..i], telemetries[..i], events, mids, Now()) && mids[0] == old(Now())
      {
        ghost var before := Now();
        ghost var ev := ServeDemand(t, demands[i], telemetries[i], w);
        MoreProgress(w, t, demands, telemetries, i, events, mids, ev, before, Now());
        events, mids := events + [ev], mids + [Now()];
        i := i + 1;
      }
      assert demands[..i] == demands && telemetries[..i] == telemetries;
    }

    /** One tick of `PCE.Run`. */
    method RunTick(nodes: set<NodeId>, links: map<LinkId, Edge>, demands: seq<Demand>, lastSeen: map<LinkId, int>,
                   telemetry: CostGraph, telemetries: seq<CostGraph>, now: int, ghost w: World)
      returns (ghost rec: Record)
      requires ValidWorld(w) && w == World(w.hose, nodes, links, holdDown)
      requires Inv(w, Now())
      requires NonNegativeCosts(telemetry) && |telemetries| == |demands|
      requires forall i :: 0 <= i < |telemetries| ==> NonNegativeCosts(telemetries[i])
      requires DistinctKeys(demands) && forall i :: 0 <= i < |demands| ==> ValidDemand(w.hose, demands[i])
      modifies this, ledger
      ensures Ticked(w, old(Now()), rec, Now())
      ensures Inv(w, Now())
      ensures rec.demands == demands && rec.tick.now == now && HoldsUpLinks(rec.tick.graph, links, up)
    {
      var t := BeginTick(nodes, links, lastSeen, telemetry, now, w);
      ghost var events, mids := ServeAll(t, demands, telemetries, w);
      rec := Record(t, telemetry, demands, events, mids);
    }
  }

  /** The demand loop has served `demands` and the state is `s`. */
  ghost predicate Progress(w: World, t: Tick, demands: seq<Demand>, telemetries: seq<CostGraph>, events: seq<Event>, mids: seq<State>, s: State) {
    && AllServed(w, t, demands, events, mids) && mids[|demands|] == s
    && Inv(w, s) && Untouched(t, mids[0], s, demands)
    && Met(telemetries, events)
  }

  /** The measurements that arrived before each demand. */
  ghost predicate Met(telemetries: seq<CostGraph>, events: seq<Event>) {
    |telemetries| == |events| && forall i :: 0 <= i < |events| ==> events[i].telemetry == telemetries[i]
  }

  lemma MetMore(telemetries: seq<CostGraph>, i: nat, events: seq<Event>, ev: Event)
    requires i < |telemetries| && Met(telemetries[..i], events) && ev.telemetry == telemetries[i]
    ensures Met(telemetries[..i + 1], events + [ev])
  {
  }

  lemma MoreProgress(w: World, t: Tick, demands: seq<Demand>, telemetries: seq<CostGraph>, i: nat, events: seq<Event>, mids: seq<State>, ev: Event, s: State, s': State)
    requires ValidWorld(w) && ValidTick(w, t) && i < |demands| == |telemetries| && DistinctKeys(demands)
    requires Progress(w, t, demands[..i], telemetries[..i], events, mids, s)
    requires ValidDemand(w.hose, demands[i]) && NonNegativeCosts(ev.telemetry) && ev.telemetry == telemetries[i]
    requires Served(w, t, demands[i], ev, s, s')
    ensures Progress(w, t, demands[..i + 1], telemetries[..i + 1], events + [ev], mids + [s'], s')
    ensures (mids + [s'])[0] == mids[0]
  {
    var done := demands[..i + 1];
    assert done[..i] == demands[..i];
    assert DistinctKeys(done);
    OneMoreServed(w, t, done, ev, mids[0], s, s');
    OneMoreInRecord(w, t, done, events, mids, ev, s');
    MetMore(telemetries, i, events, ev);
  }

  lemma OneMoreInRecord(w: World, t: Tick, demands: seq<Demand>, events: seq<Event>, mids: seq<State>, ev: Event, s: State)
    requires demands != []
    requires AllServed(w, t, demands[..|demands| - 1], events, mids)
    requires Served(w, t, demands[|demands| - 1], ev, mids[|demands| - 1], s)
    ensures AllServed(w, t, demands, events + [ev], mids + [s])
  {
    var n := |demands|;
    assert (events + [ev])[..n - 1] == events && (mids + [s])[..n] == mids;
  }

  /** The edges of a path, looked up in the tick's graph. */
  method EdgesAt(g: PceGraph, ids: seq<PceEdgeId>) returns (edges: seq<PceEdge>)
    requires WellFormed(g) && forall id :: id in ids ==> id in g.edges
    ensures Ids(edges) == Elems(ids)
    ensures forall e :: e in edges ==> e.id in ids && e == g.edges[e.id]
  {
    edges := [];
    var i := 0;
    while i < |ids|
      invariant 0 <= i <= |ids|
      invariant Ids(edges) == Elems(ids[..i])
      invariant forall e :: e in edges ==> e.id in ids && e == g.edges[e.id]
    {
      assert Elems(ids[..i + 1]) == Elems(ids[..i]) + {ids[i]};
      assert Ids(edges + [g.edges[ids[i]]]) == Ids(edges) + {ids[i]};
      edges := edges + [g.edges[ids[i]]];
      i := i + 1;
    }
    assert ids[..i] == ids;
  }
}
