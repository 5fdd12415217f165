/** One tick of the path computation element as a step over (registry, paths, last reroutes, costs). */
module Pce {
  import opened Topology
  import opened Hose
  import opened Ledger
  import opened BandwidthRegistry
  import opened Admission
  import opened Cspf
  import opened Pricing

  /** What does not change while the controller runs: the tenants' contracts and the topology are
      loaded at boot. */
  datatype World = World(hose: Hose, nodes: set<NodeId>, links: map<LinkId, Edge>, holdDown: int)

  datatype Demand = Demand(tenant: TenantId, color: Color, objective: Objective, from: NodeId, to: NodeId, fromMbps: real, toMbps: real)

  datatype State = State(registry: Registry, paths: map<PathKey, Path>, lastReroute: map<PathKey, int>, costs: CostGraph)

  /** Fixed at the start of a tick: the graph of the links that are up, the stored paths, the cost
      snapshot and the time. */
  datatype Tick = Tick(graph: PceGraph, previous: map<PathKey, Path>, snapshot: CostGraph, now: int)

  /** What serving a demand meets: the measurements that arrived meanwhile, the pruned graph and
      the outcome of the search. */
  datatype Event = Event(telemetry: CostGraph, pruned: PceGraph, found: Result<Path>)

  function KeyOf(d: Demand): PathKey {
    PathKey(d.tenant, FlowKey(d.from, d.to, d.color))
  }

  function ReservationOf(d: Demand): Reservation {
    Reservation(FlowKey(d.from, d.to, d.color), d.fromMbps, d.toMbps)
  }

  // ---------- Costs ----------

  /** Measurements overwrite every dimension but the reserved-bandwidth one, which is the PCE's own. */
  function Observed(costs: CostGraph, telemetry: CostGraph): CostGraph {
    map l | l in costs :: if l in telemetry then costs[l] + (telemetry[l] - {StaticUtilization}) else costs[l]
  }

  /** `updateStaticBandwidthUtilizationCost`: every link of the graph is priced by its load. */
  ghost function Priced(w: World, g: PceGraph, reg: Registry, costs: CostGraph): CostGraph {
    map l | l in costs ::
      if l in w.links && LinkEdgeId(w.links[l]) in g.edges
      then costs[l][StaticUtilization := ReservedCost(Load(w.hose, Booked(reg, LinkEdgeId(w.links[l]))), w.links[l].bandwidth)]
      else costs[l]
  }

  /** `rescorePath`: a path over an edge that left the graph costs infinity. */
  ghost function Rescored(g: PceGraph, weights: Weights, edges: seq<PceEdgeId>): Cost
    requires weights.Keys == g.edges.Keys
  {
    if forall id :: id in edges ==> id in g.edges then WalkCost(weights, edges) else Inf
  }

  // ---------- One demand ----------

  /** `Path.Equal`. */
  predicate SameRoute(p: Path, q: Path) {
    p.color == q.color && p.nodes == q.nodes && p.edges == q.edges
  }

  datatype Decision =
    | Leave
    | Store(path: Path)
    | Switch(release: seq<PceEdgeId>, path: Path, reroute: bool)

  const HYSTERESIS := 1.1

  /** The branches of the demand loop after the search. `score` is the rescored cost of the
      stored path; the new path's cost is positive, so comparing with the product is comparing
      the quotient with the threshold. */
  function Decide(previous: Option<Path>, score: Cost, found: Result<Path>, color: Color,
                  lastReroute: Option<int>, now: int, holdDown: int): Decision
  {
    if found.Err? then Leave
    else
      var computed := found.value.(color := color);
      if previous.None? then Switch([], computed, false)
      else
        var kept := if score.Inf? then previous.value else previous.value.(cost := score.v);
        if SameRoute(previous.value, computed) then Store(computed)
        else if score.Finite? && score.v < HYSTERESIS * computed.cost then Store(kept)
        else if score.Finite? && lastReroute.Some? && holdDown > now - lastReroute.value then Store(kept)
        else Switch(previous.value.edges, computed, true)
  }

  function Find<K, V>(m: map<K, V>, k: K): Option<V> {
    if k in m then Some(m[k]) else None
  }

  ghost function Score(t: Tick, d: Demand): Cost {
    if KeyOf(d) in t.previous
    then Rescored(t.graph, EdgeWeights(t.graph, t.snapshot, d.objective), t.previous[KeyOf(d)].edges)
    else Inf
  }

  ghost function Decided(w: World, t: Tick, d: Demand, s: State, found: Result<Path>): Decision {
    Decide(Find(t.previous, KeyOf(d)), Score(t, d), found, d.color, Find(s.lastReroute, KeyOf(d)), t.now, w.holdDown)
  }

  ghost predicate AllFit(h: Hose, reg: Registry, g: PceGraph, edges: seq<PceEdgeId>, k: PathKey) {
    forall id :: id in edges ==> id in g.edges && Fits(h, reg, g.edges[id], k)
  }

  /** The state after a decision. */
  ghost predicate Carried(w: World, t: Tick, d: Demand, decision: Decision, s: State, s': State) {
    var k := KeyOf(d);
    match decision
    case Leave => s' == s
    case Store(p) => s' == s.(paths := s.paths[k := p])
    case Switch(release, p, reroute) =>
      if !AllFit(w.hose, s.registry, t.graph, p.edges, k) then s' == s
      else
        && Moved(s.registry, s'.registry, Elems(release), Elems(p.edges), k, ReservationOf(d))
        && (NoEmpties(s.registry) ==> NoEmpties(s'.registry))
        && s'.paths == s.paths[k := p]
        && s'.lastReroute == (if reroute then s.lastReroute[k := t.now] else s.lastReroute)
        && s'.costs == Priced(w, t.graph, s'.registry, s.costs)
  }

  /** Serving one demand: prune, search on the live costs, decide on the snapshot, carry out. */
  ghost predicate Served(w: World, t: Tick, d: Demand, ev: Event, s: State, s': State) {
    var seen := s.(costs := Observed(s.costs, ev.telemetry));
    && IsPruned(w.hose, s.registry, t.graph, KeyOf(d), ev.pruned)
    && Shortest(ev.pruned, EdgeWeights(ev.pruned, seen.costs, d.objective), d.from, d.to, ev.found)
    && Carried(w, t, d, Decided(w, t, d, s, ev.found), seen, s')
  }

  // ---------- What holds between demands ----------

  /** A simple chain of topology links from the flow's source to its sink. */
  ghost predicate PathOk(w: World, k: PathKey, p: Path) {
    && p.color == k.flow.color
    && |p.nodes| == |p.edges| + 1 && NoRepeats(p.nodes)
    && p.nodes[0] == k.flow.source && p.nodes[|p.nodes| - 1] == k.flow.sink
    && (forall n :: n in p.nodes ==> n in w.nodes)
    && forall i :: 0 <= i < |p.edges| ==>
         p.edges[i].link in w.links && p.edges[i] == LinkEdgeId(w.links[p.edges[i].link]) &&
         p.edges[i].from == p.nodes[i] && p.edges[i].to == p.nodes[i + 1]
  }

  /** The registry is an index of the path store: a flow is booked on an edge exactly when its
      stored path uses that edge. */
  ghost predicate Indexed(reg: Registry, paths: map<PathKey, Path>) {
    forall e, k :: Lookup(reg, e, k).Some? <==> k in paths && e in paths[k].edges
  }

  ghost function BoundsOf(w: World): Bounds {
    (e: PceEdgeId) => if e.link in w.links then w.links[e.link].bandwidth * (1.0 - CAPACITY_HEADROOM) else 0.0
  }

  ghost predicate LedgerOk(w: World, reg: Registry) {
    Consistent(w.hose, reg) && NoEmpties(reg) && Safe(w.hose, BoundsOf(w), reg)
  }

  ghost predicate Inv(w: World, s: State) {
    && LedgerOk(w, s.registry)
    && Indexed(s.registry, s.paths)
    && (forall k :: k in s.paths ==> PathOk(w, k, s.paths[k]))
    && NonNegativeCosts(s.costs)
  }

  ghost predicate ValidWorld(w: World) {
    NonNegative(w.hose) && ValidLinks(w.links)
  }

  ghost predicate ValidTick(w: World, t: Tick) {
    && WellFormed(t.graph) && t.graph.nodes == w.nodes
    && NonNegativeCosts(t.snapshot)
    && forall p :: p in t.graph.edges ==> p.link in w.links && t.graph.edges[p] == LinkEdge(w.links[p.link])
  }

  /** What `BuildDemands` guarantees of a demand. */
  ghost predicate ValidDemand(h: Hose, d: Demand) {
    && d.from != d.to && PositiveWeights(d.objective)
    && Agrees(h, d.tenant, ReservationOf(d))
  }

  ghost predicate SameAt<K, V>(m: map<K, V>, m': map<K, V>, k: K) {
    Find(m, k) == Find(m', k)
  }

  // ---------- One tick ----------

  /** Everything a tick meets: what it fixes at its start, the measurements before it, its demands in
      order, and what each demand met. `mids[i]` is the state before demand `i`. */
  datatype Record = Record(tick: Tick, telemetry: CostGraph, demands: seq<Demand>, events: seq<Event>, mids: seq<State>)

  ghost predicate DistinctKeys(demands: seq<Demand>) {
    forall i, j :: 0 <= i < j < |demands| ==> KeyOf(demands[i]) != KeyOf(demands[j])
  }

  /** The demands are served one after the other. */
  ghost predicate AllServed(w: World, t: Tick, demands: seq<Demand>, events: seq<Event>, mids: seq<State>)
    decreases |demands|
  {
    && |events| == |demands| && |mids| == |demands| + 1
    && (demands != [] ==>
          var n := |demands|;
          && AllServed(w, t, demands[..n - 1], events[..n - 1], mids[..n])
          && Served(w, t, demands[n - 1], events[n - 1], mids[n - 1], mids[n]))
  }

  ghost predicate AllValid(h: Hose, demands: seq<Demand>, events: seq<Event>) {
    && DistinctKeys(demands)
    && (forall i :: 0 <= i < |demands| ==> ValidDemand(h, demands[i]))
    && (forall i :: 0 <= i < |events| ==> NonNegativeCosts(events[i].telemetry))
  }

  /** What the environment and `BuildDemands` guarantee of a tick. */
  ghost predicate ValidRecord(w: World, rec: Record) {
    ValidTick(w, rec.tick) && NonNegativeCosts(rec.telemetry) && AllValid(w.hose, rec.demands, rec.events)
  }

  /** The costs are brought up to date, a snapshot is taken, and the demands are served. */
  ghost predicate Ticked(w: World, s: State, rec: Record, s': State) {
    && ValidRecord(w, rec)
    && AllServed(w, rec.tick, rec.demands, rec.events, rec.mids)
    && rec.mids[0] == s.(costs := Priced(w, rec.tick.graph, s.registry, Observed(s.costs, rec.telemetry)))
    && rec.tick.previous == s.paths
    && rec.tick.snapshot == rec.mids[0].costs
    && s' == rec.mids[|rec.demands|]
  }

  ghost predicate StartState(s: State) {
    s.registry == map[] && s.paths == map[] && s.lastReroute == map[] && NonNegativeCosts(s.costs)
  }

  ghost predicate StepAt(w: World, states: seq<State>, ticks: seq<Record>, i: nat)
    requires i < |ticks| && |states| == |ticks| + 1
  {
    Ticked(w, states[i], ticks[i], states[i + 1])
  }

  /** A run of ticks from a freshly started controller. */
  ghost predicate Run(w: World, states: seq<State>, ticks: seq<Record>) {
    && ValidWorld(w)
    && |states| == |ticks| + 1 && StartState(states[0])
    && forall i :: 0 <= i < |ticks| ==> StepAt(w, states, ticks, i)
  }
}
