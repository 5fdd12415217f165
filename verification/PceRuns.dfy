/** What every run of ticks keeps: the registry mirrors the path store, no link is oversubscribed,
    and paths move only when the hysteresis and hold-down rules let them. */
module PceRuns {
  import opened FiniteSums
  import opened Topology
  import opened Hose
  import opened Ledger
  import opened BandwidthRegistry
  import opened Admission
  import opened Cspf
  import opened Pricing
  import opened Pce

  // ---------- One demand keeps the invariant ----------

  lemma ObservedNonNegative(costs: CostGraph, telemetry: CostGraph)
    requires NonNegativeCosts(costs) && NonNegativeCosts(telemetry)
    ensures NonNegativeCosts(Observed(costs, telemetry))
  {
  }

  lemma PricedNonNegative(w: World, g: PceGraph, reg: Registry, costs: CostGraph)
    requires NonNegative(w.hose) && NonNegativeCosts(costs)
    ensures NonNegativeCosts(Priced(w, g, reg, costs))
  {
    forall l, d | l in costs && d in Priced(w, g, reg, costs)[l] && Priced(w, g, reg, costs)[l][d].Finite?
      ensures Priced(w, g, reg, costs)[l][d].v >= 0.0
    {
      if d == StaticUtilization && l in w.links && LinkEdgeId(w.links[l]) in g.edges {
        var booked := Booked(reg, LinkEdgeId(w.links[l]));
        LoadMonotone(w.hose, booked, booked);
        ReservedCostMonotone(Load(w.hose, booked), Load(w.hose, booked), w.links[l].bandwidth);
      }
    }
  }

  /** The path a search returns is a chain of topology links on which the demand fits. */
  lemma FoundPath(w: World, t: Tick, d: Demand, reg: Registry, pruned: PceGraph, weights: Weights, p: Path)
    requires ValidTick(w, t) && d.from != d.to
    requires IsPruned(w.hose, reg, t.graph, KeyOf(d), pruned)
    requires Weighs(pruned, weights)
    requires Shortest(pruned, weights, d.from, d.to, Ok(p))
    ensures PathOk(w, KeyOf(d), p.(color := d.color))
    ensures AllFit(w.hose, reg, t.graph, p.edges, KeyOf(d))
    ensures p.cost >= 1.0
  {
    NonNegativeWalk(pruned, weights, d.from, p.edges, d.to);
    WalkNodes(pruned, d.from, p.nodes, p.edges, d.to);
    forall i | 0 <= i < |p.edges|
      ensures p.edges[i].link in w.links && p.edges[i] == LinkEdgeId(w.links[p.edges[i].link])
      ensures p.edges[i].from == p.nodes[i] && p.edges[i].to == p.nodes[i + 1]
    {
      assert p.edges[i] in pruned.edges && pruned.edges[p.edges[i]].id == p.edges[i];
    }
  }

  lemma StoreKeepsInv(w: World, s: State, k: PathKey, p: Path)
    requires Inv(w, s) && k in s.paths
    requires p.nodes == s.paths[k].nodes && p.edges == s.paths[k].edges && p.color == s.paths[k].color
    ensures Inv(w, s.(paths := s.paths[k := p]))
  {
  }

  lemma EdgesOfGraph(w: World, t: Tick, reg: Registry, ids: seq<PceEdgeId>, k: PathKey) returns (edges: seq<PceEdge>)
    requires ValidTick(w, t) && AllFit(w.hose, reg, t.graph, ids, k)
    ensures Ids(edges) == Elems(ids)
    ensures Bounded(BoundsOf(w), edges)
    ensures forall e :: e in edges ==> Fits(w.hose, reg, e, k)
  {
    edges := seq(|ids|, i requires 0 <= i < |ids| => assert ids[i] in ids; t.graph.edges[ids[i]]);
    forall id | id in ids
      ensures id in Ids(edges)
    {
      var i :| 0 <= i < |ids| && ids[i] == id;
      assert edges[i].id == id;
    }
    forall e | e in edges
      ensures e.id in ids && t.graph.edges[e.id] == e && Bookable(e) == BoundsOf(w)(e.id)
    {
      var i :| 0 <= i < |ids| && e == t.graph.edges[ids[i]];
      assert t.graph.edges[ids[i]].id == ids[i];
      BookableOfLink(w.links[ids[i].link]);
    }
  }

  lemma SwitchKeepsLedger(w: World, t: Tick, d: Demand, reg: Registry, reg': Registry, release: seq<PceEdgeId>, ids: seq<PceEdgeId>)
    requires ValidWorld(w) && ValidTick(w, t) && ValidDemand(w.hose, d)
    requires LedgerOk(w, reg)
    requires AllFit(w.hose, reg, t.graph, ids, KeyOf(d))
    requires Moved(reg, reg', Elems(release), Elems(ids), KeyOf(d), ReservationOf(d))
    requires NoEmpties(reg')
    ensures LedgerOk(w, reg')
  {
    var edges := EdgesOfGraph(w, t, reg, ids, KeyOf(d));
    MoveStaysSafe(w.hose, BoundsOf(w), reg, reg', Elems(release), edges, KeyOf(d), ReservationOf(d));
    MoveStaysConsistent(w.hose, reg, reg', Elems(release), Elems(ids), KeyOf(d), ReservationOf(d));
  }

  lemma SwitchKeepsIndex(reg: Registry, reg': Registry, paths: map<PathKey, Path>, k: PathKey, r: Reservation, p: Path, release: seq<PceEdgeId>)
    requires Indexed(reg, paths)
    requires Moved(reg, reg', Elems(release), Elems(p.edges), k, r)
    requires release == (if k in paths then paths[k].edges else [])
    ensures Indexed(reg', paths[k := p])
  {
  }

  lemma SwitchKeepsInv(w: World, t: Tick, d: Demand, s: State, s': State, release: seq<PceEdgeId>, p: Path, reroute: bool)
    requires ValidWorld(w) && ValidTick(w, t) && ValidDemand(w.hose, d)
    requires Inv(w, s)
    requires PathOk(w, KeyOf(d), p) && AllFit(w.hose, s.registry, t.graph, p.edges, KeyOf(d))
    requires release == (if KeyOf(d) in s.paths then s.paths[KeyOf(d)].edges else [])
    requires Carried(w, t, d, Switch(release, p, reroute), s, s')
    ensures Inv(w, s')
  {
    SwitchKeepsLedger(w, t, d, s.registry, s'.registry, release, p.edges);
    SwitchKeepsIndex(s.registry, s'.registry, s.paths, KeyOf(d), ReservationOf(d), p, release);
    PricedNonNegative(w, t.graph, s'.registry, s.costs);
  }

  /** What a decision can be, read off the branches. */
  lemma DecisionFacts(previous: Option<Path>, score: Cost, found: Result<Path>, color: Color, last: Option<int>, now: int, hold: int)
    ensures var decision := Decide(previous, score, found, color, last, now, hold);
            && (decision.Leave? <==> found.Err?)
            && (decision.Store? ==> previous.Some? && SameRoute(previous.value, decision.path))
            && (decision.Switch? ==>
                  && decision.path == found.value.(color := color)
                  && decision.release == (if previous.Some? then previous.value.edges else [])
                  && decision.reroute == previous.Some?)
            && (decision.Switch? && previous.Some? ==>
                  && !SameRoute(previous.value, decision.path)
                  && (score.Inf? ||
                      (score.v >= HYSTERESIS * decision.path.cost && (last.None? || now - last.value >= hold))))
  {
  }

  /** Serving a demand keeps the invariant, provided the tick remembers this demand's stored path. */
  lemma ServedKeepsInv(w: World, t: Tick, d: Demand, ev: Event, s: State, s': State)
    requires ValidWorld(w) && ValidTick(w, t) && ValidDemand(w.hose, d) && NonNegativeCosts(ev.telemetry)
    requires Inv(w, s) && SameAt(t.previous, s.paths, KeyOf(d))
    requires Served(w, t, d, ev, s, s')
    ensures Inv(w, s')
  {
    var seen := s.(costs := Observed(s.costs, ev.telemetry));
    ObservedNonNegative(s.costs, ev.telemetry);
    DecisionFacts(Find(t.previous, KeyOf(d)), Score(t, d), ev.found, d.color, Find(s.lastReroute, KeyOf(d)), t.now, w.holdDown);
    match Decided(w, t, d, s, ev.found)
    case Leave =>
    case Store(p) => StoreKeepsInv(w, seen, KeyOf(d), p);
    case Switch(release, p, reroute) =>
      EdgeWeightsWeigh(ev.pruned, seen.costs, d.objective);
      FoundPath(w, t, d, s.registry, ev.pruned, EdgeWeights(ev.pruned, seen.costs, d.objective), ev.found.value);
      SwitchKeepsInv(w, t, d, seen, s', release, p, reroute);
  }

  // ---------- One tick keeps the invariant ----------

  ghost predicate Mentions(demands: seq<Demand>, k: PathKey) {
    exists i :: 0 <= i < |demands| && KeyOf(demands[i]) == k
  }

  /** The stored path moved, and the rules allowed it: its rescored cost is infinite, or it costs
      at least 1.1 times the new one and the last reroute is old enough. */
  ghost predicate RerouteAllowed(w: World, t: Tick, d: Demand, last: Option<int>, p: Path) {
    var score := Score(t, d);
    score.Inf? || (score.v >= HYSTERESIS * p.cost && (last.None? || t.now - last.value >= w.holdDown))
  }

  ghost predicate Kept(s: State, s': State, k: PathKey) {
    k in s.paths && k in s'.paths && SameRoute(s.paths[k], s'.paths[k])
  }

  /** How a state may change at one key while demand `d` for that key is served. */
  ghost predicate Justified(w: World, t: Tick, d: Demand, s: State, s': State) {
    var k := KeyOf(d);
    if k !in s.paths then SameAt(s.lastReroute, s'.lastReroute, k)
    else
      || (Kept(s, s', k) && SameAt(s.lastReroute, s'.lastReroute, k))
      || (k in s'.paths && !Kept(s, s', k) && RerouteAllowed(w, t, d, Find(s.lastReroute, k), s'.paths[k])
          && Find(s'.lastReroute, k) == Some(t.now))
  }

  lemma ServedJustified(w: World, t: Tick, d: Demand, ev: Event, s: State, s': State)
    requires Served(w, t, d, ev, s, s') && SameAt(t.previous, s.paths, KeyOf(d))
    ensures Justified(w, t, d, s, s')
    ensures forall k :: k != KeyOf(d) ==> SameAt(s.paths, s'.paths, k) && SameAt(s.lastReroute, s'.lastReroute, k)
  {
    DecisionFacts(Find(t.previous, KeyOf(d)), Score(t, d), ev.found, d.color, Find(s.lastReroute, KeyOf(d)), t.now, w.holdDown);
  }

  ghost predicate Untouched(t: Tick, start: State, s: State, demands: seq<Demand>) {
    forall k :: !Mentions(demands, k) ==> SameAt(t.previous, s.paths, k) && SameAt(start.lastReroute, s.lastReroute, k)
  }

  lemma LastKeyIsNew(demands: seq<Demand>)
    requires demands != [] && DistinctKeys(demands)
    ensures DistinctKeys(demands[..|demands| - 1])
    ensures !Mentions(demands[..|demands| - 1], KeyOf(demands[|demands| - 1]))
    ensures forall k :: Mentions(demands, k) <==> Mentions(demands[..|demands| - 1], k) || k == KeyOf(demands[|demands| - 1])
  {
    var n := |demands| - 1;
    forall k | Mentions(demands[..n], k)
      ensures Mentions(demands, k)
    {
      var i :| 0 <= i < n && KeyOf(demands[..n][i]) == k;
      assert KeyOf(demands[i]) == k;
    }
    forall k | Mentions(demands, k) && k != KeyOf(demands[n])
      ensures Mentions(demands[..n], k)
    {
      var i :| 0 <= i <= n && KeyOf(demands[i]) == k;
      assert KeyOf(demands[..n][i]) == k;
    }
  }

  lemma OneMoreServed(w: World, t: Tick, demands: seq<Demand>, ev: Event, start: State, s: State, s': State)
    requires ValidWorld(w) && ValidTick(w, t) && demands != [] && DistinctKeys(demands)
    requires ValidDemand(w.hose, demands[|demands| - 1]) && NonNegativeCosts(ev.telemetry)
    requires Inv(w, s) && Untouched(t, start, s, demands[..|demands| - 1])
    requires Served(w, t, demands[|demands| - 1], ev, s, s')
    ensures Inv(w, s') && Untouched(t, start, s', demands)
  {
    LastKeyIsNew(demands);
    ServedKeepsInv(w, t, demands[|demands| - 1], ev, s, s');
    ServedElsewhere(w, t, demands[|demands| - 1], ev, s, s');
    UntouchedMore(t, demands, start, s, s');
  }

  ghost predicate SameElsewhere(s: State, s': State, k: PathKey) {
    forall x :: x != k ==> SameAt(s.paths, s'.paths, x) && SameAt(s.lastReroute, s'.lastReroute, x)
  }

  lemma ServedElsewhere(w: World, t: Tick, d: Demand, ev: Event, s: State, s': State)
    requires Served(w, t, d, ev, s, s') && SameAt(t.previous, s.paths, KeyOf(d))
    ensures SameElsewhere(s, s', KeyOf(d))
  {
    ServedJustified(w, t, d, ev, s, s');
  }

  lemma UntouchedMore(t: Tick, demands: seq<Demand>, start: State, s: State, s': State)
    requires demands != [] && DistinctKeys(demands) && Untouched(t, start, s, demands[..|demands| - 1])
    requires SameElsewhere(s, s', KeyOf(demands[|demands| - 1]))
    ensures Untouched(t, start, s', demands)
  {
    LastKeyIsNew(demands);
    forall k | !Mentions(demands, k)
      ensures SameAt(t.previous, s'.paths, k) && SameAt(start.lastReroute, s'.lastReroute, k)
    {
      assert k != KeyOf(demands[|demands| - 1]) && SameAt(t.previous, s.paths, k);
    }
  }

  lemma AllValidPrefix(h: Hose, demands: seq<Demand>, events: seq<Event>)
    requires AllValid(h, demands, events) && |demands| == |events| > 0
    ensures AllValid(h, demands[..|demands| - 1], events[..|demands| - 1])
  {
  }

  lemma {:induction false} AllServedKeep(w: World, t: Tick, demands: seq<Demand>, events: seq<Event>, mids: seq<State>)
    requires ValidWorld(w) && ValidTick(w, t) && AllValid(w.hose, demands, events)
    requires AllServed(w, t, demands, events, mids)
    requires Inv(w, mids[0]) && t.previous == mids[0].paths
    ensures Inv(w, mids[|demands|])
    ensures Untouched(t, mids[0], mids[|demands|], demands)
    decreases |demands|
  {
    if demands != [] {
      var n := |demands|;
      AllValidPrefix(w.hose, demands, events);
      AllServedKeep(w, t, demands[..n - 1], events[..n - 1], mids[..n]);
      OneMoreServed(w, t, demands, events[n - 1], mids[0], mids[n - 1], mids[n]);
    }
  }

  lemma TickKeepsInv(w: World, s: State, rec: Record, s': State)
    requires ValidWorld(w) && Inv(w, s) && Ticked(w, s, rec, s')
    ensures Inv(w, s')
  {
    ObservedNonNegative(s.costs, rec.telemetry);
    PricedNonNegative(w, rec.tick.graph, s.registry, Observed(s.costs, rec.telemetry));
    AllServedKeep(w, rec.tick, rec.demands, rec.events, rec.mids);
  }

  // ---------- Every reachable state ----------

  lemma StartKeepsInv(w: World, s: State)
    requires StartState(s)
    ensures Inv(w, s)
  {
    EmptyIsSafe(w.hose, BoundsOf(w));
  }

  lemma {:induction false} RunKeepsInv(w: World, states: seq<State>, ticks: seq<Record>, i: nat)
    requires Run(w, states, ticks) && i < |states|
    ensures Inv(w, states[i])
  {
    if i == 0 {
      StartKeepsInv(w, states[0]);
    } else {
      RunKeepsInv(w, states, ticks, i - 1);
      assert StepAt(w, states, ticks, i - 1);
      TickKeepsInv(w, states[i - 1], ticks[i - 1], states[i]);
    }
  }

  /** After any run the registry says exactly what the path store says: a flow is booked on an
      edge if and only if its stored path uses that edge, and no other edge has an entry. */
  lemma RegistryMirrorsPaths(w: World, states: seq<State>, ticks: seq<Record>, i: nat, e: PceEdgeId)
    requires Run(w, states, ticks) && i < |states|
    ensures forall k :: Lookup(states[i].registry, e, k).Some? <==> k in states[i].paths && e in states[i].paths[k].edges
    ensures e in states[i].registry <==> exists k :: k in states[i].paths && e in states[i].paths[k].edges
  {
    RunKeepsInv(w, states, ticks, i);
    var reg := states[i].registry;
    if e in reg {
      var t := SomeMember(reg[e].Keys);
      var f := SomeMember(reg[e][t].Keys);
      assert Lookup(reg, e, PathKey(t, f)).Some?;
    }
  }

  /** The stored paths that use an edge. */
  ghost function Users(paths: map<PathKey, Path>, e: PceEdgeId): set<PathKey> {
    set k | k in paths && e in paths[k].edges
  }

  lemma UsersAreBooked(reg: Registry, paths: map<PathKey, Path>, e: PceEdgeId)
    requires Indexed(reg, paths)
    ensures Users(paths, e) == Booked(reg, e)
  {
    forall k
      ensures k in Users(paths, e) <==> k in Booked(reg, e)
    {
      BookedIffFound(reg, e, k);
    }
  }

  /** The guarantee the controller exists for: after any run of ticks, whatever traffic the tenants
      send within their per-PoP, per-class contracts, routing it on the stored paths loads no link
      beyond 95% of its bandwidth. */
  lemma ContractedTrafficFits(w: World, states: seq<State>, ticks: seq<Record>, i: nat, traffic: PathKey -> real, link: LinkId)
    requires Run(w, states, ticks) && i < |states|
    requires link in w.links && w.links[link].bandwidth >= 0.0
    requires Admissible(w.hose, states[i].paths.Keys, traffic)
    ensures Sum(Users(states[i].paths, LinkEdgeId(w.links[link])), traffic) <= w.links[link].bandwidth * (1.0 - CAPACITY_HEADROOM)
  {
    RunKeepsInv(w, states, ticks, i);
    var e := LinkEdgeId(w.links[link]);
    var users := Users(states[i].paths, e);
    UsersAreBooked(states[i].registry, states[i].paths, e);
    HoseCoversTraffic(w.hose, states[i].paths.Keys, users, traffic);
    assert w.links[link].id == link;
  }

  // ---------- Why paths move ----------

  /** The demand of a tick that has this key, if any, justifies what happened at it. */
  ghost predicate Accounted(w: World, t: Tick, demands: seq<Demand>, s: State, s': State, k: PathKey) {
    if Mentions(demands, k)
    then exists i :: 0 <= i < |demands| && KeyOf(demands[i]) == k && Justified(w, t, demands[i], s, s')
    else SameAt(s.paths, s'.paths, k) && SameAt(s.lastReroute, s'.lastReroute, k)
  }

  lemma JustifiedTransfers(w: World, t: Tick, d: Demand, a: State, b: State, a': State, b': State)
    requires Justified(w, t, d, a, b)
    requires SameAt(a.paths, a'.paths, KeyOf(d)) && SameAt(a.lastReroute, a'.lastReroute, KeyOf(d))
    requires SameAt(b.paths, b'.paths, KeyOf(d)) && SameAt(b.lastReroute, b'.lastReroute, KeyOf(d))
    ensures Justified(w, t, d, a', b')
  {
  }

  lemma EarlierAccounted(w: World, t: Tick, demands: seq<Demand>, start: State, s: State, s': State, k: PathKey)
    requires demands != [] && Mentions(demands[..|demands| - 1], k) && Accounted(w, t, demands[..|demands| - 1], start, s, k)
    requires SameAt(s.paths, s'.paths, k) && SameAt(s.lastReroute, s'.lastReroute, k)
    ensures exists i :: 0 <= i < |demands| && KeyOf(demands[i]) == k && Justified(w, t, demands[i], start, s')
  {
    var n := |demands| - 1;
    var i :| 0 <= i < n && KeyOf(demands[..n][i]) == k && Justified(w, t, demands[..n][i], start, s);
    JustifiedTransfers(w, t, demands[i], start, s, start, s');
  }

  lemma LastAccounted(w: World, t: Tick, demands: seq<Demand>, ev: Event, start: State, s: State, s': State)
    requires demands != [] && DistinctKeys(demands)
    requires Served(w, t, demands[|demands| - 1], ev, s, s')
    requires t.previous == start.paths
    requires Untouched(t, start, s, demands[..|demands| - 1])
    ensures Justified(w, t, demands[|demands| - 1], start, s')
  {
    var d := demands[|demands| - 1];
    LastKeyIsNew(demands);
    ServedJustified(w, t, d, ev, s, s');
    JustifiedTransfers(w, t, d, s, s', start, s');
  }

  lemma OneMoreAccounted(w: World, t: Tick, demands: seq<Demand>, ev: Event, start: State, s: State, s': State, k: PathKey)
    requires demands != [] && DistinctKeys(demands)
    requires Served(w, t, demands[|demands| - 1], ev, s, s')
    requires t.previous == start.paths
    requires Untouched(t, start, s, demands[..|demands| - 1])
    requires Accounted(w, t, demands[..|demands| - 1], start, s, k)
    ensures Accounted(w, t, demands, start, s', k)
  {
    var n := |demands| - 1;
    LastKeyIsNew(demands);
    if k == KeyOf(demands[n]) {
      LastAccounted(w, t, demands, ev, start, s, s');
    } else {
      ServedJustified(w, t, demands[n], ev, s, s');
      if Mentions(demands[..n], k) {
        EarlierAccounted(w, t, demands, start, s, s', k);
      }
    }
  }

  lemma {:induction false} AllServedAccounted(w: World, t: Tick, demands: seq<Demand>, events: seq<Event>, mids: seq<State>, k: PathKey)
    requires ValidWorld(w) && ValidTick(w, t) && AllValid(w.hose, demands, events)
    requires AllServed(w, t, demands, events, mids)
    requires Inv(w, mids[0]) && t.previous == mids[0].paths
    ensures Accounted(w, t, demands, mids[0], mids[|demands|], k)
    decreases |demands|
  {
    if demands != [] {
      var n := |demands|;
      AllValidPrefix(w.hose, demands, events);
      AllServedKeep(w, t, demands[..n - 1], events[..n - 1], mids[..n]);
      AllServedAccounted(w, t, demands[..n - 1], events[..n - 1], mids[..n], k);
      OneMoreAccounted(w, t, demands, events[n - 1], mids[0], mids[n - 1], mids[n], k);
    }
  }

  /** The tick took this flow's stored path away from where it was. */
  ghost predicate Rerouted(s: State, s': State, k: PathKey) {
    k in s.paths && !Kept(s, s', k)
  }

  ghost predicate Broken(t: Tick, demands: seq<Demand>, k: PathKey) {
    exists i :: 0 <= i < |demands| && KeyOf(demands[i]) == k && Score(t, demands[i]).Inf?
  }

  /** In every tick of every run a stored path is replaced only when its rescored cost is infinite,
      or when it costs at least 1.1 times the new path and the hold-down window has passed. The
      window is measured from `lastReroute`, which holds the time of the last replacement. */
  lemma TickReroutes(w: World, s: State, rec: Record, s': State, k: PathKey)
    requires ValidWorld(w) && Inv(w, s) && Ticked(w, s, rec, s')
    ensures k in s.paths ==> k in s'.paths
    ensures !Rerouted(s, s', k) ==> SameAt(s.lastReroute, s'.lastReroute, k)
    ensures Rerouted(s, s', k) ==> Find(s'.lastReroute, k) == Some(rec.tick.now)
    ensures Rerouted(s, s', k) ==>
              exists i :: 0 <= i < |rec.demands| && KeyOf(rec.demands[i]) == k &&
                          RerouteAllowed(w, rec.tick, rec.demands[i], Find(s.lastReroute, k), s'.paths[k])
  {
    ObservedNonNegative(s.costs, rec.telemetry);
    PricedNonNegative(w, rec.tick.graph, s.registry, Observed(s.costs, rec.telemetry));
    AllServedAccounted(w, rec.tick, rec.demands, rec.events, rec.mids, k);
  }

  /** Once replaced at some time, a flow remembers a replacement at that time or later. */
  lemma {:induction false} RememberedReroute(w: World, states: seq<State>, ticks: seq<Record>, k: PathKey, i: nat, j: nat)
    requires Run(w, states, ticks) && i < j <= |ticks|
    requires forall a, b :: 0 <= a <= b < |ticks| ==> ticks[a].tick.now <= ticks[b].tick.now
    requires Rerouted(states[i], states[i + 1], k)
    ensures k in states[j].lastReroute && states[j].lastReroute[k] >= ticks[i].tick.now
    decreases j
  {
    RunKeepsInv(w, states, ticks, j - 1);
    assert StepAt(w, states, ticks, j - 1);
    TickReroutes(w, states[j - 1], ticks[j - 1], states[j], k);
    if j - 1 > i {
      RememberedReroute(w, states, ticks, k, i, j - 1);
    }
  }

  /** Over every run with non-decreasing tick times, two replacements of one flow's path are at
      least a hold-down window apart, unless the second one left a path of infinite cost. */
  lemma ReroutesAreSpaced(w: World, states: seq<State>, ticks: seq<Record>, k: PathKey, i: nat, j: nat)
    requires Run(w, states, ticks) && i < j < |ticks|
    requires forall a, b :: 0 <= a <= b < |ticks| ==> ticks[a].tick.now <= ticks[b].tick.now
    requires Rerouted(states[i], states[i + 1], k) && Rerouted(states[j], states[j + 1], k)
    ensures Broken(ticks[j].tick, ticks[j].demands, k) || ticks[j].tick.now - ticks[i].tick.now >= w.holdDown
  {
    RunKeepsInv(w, states, ticks, j);
    assert StepAt(w, states, ticks, j);
    TickReroutes(w, states[j], ticks[j], states[j + 1], k);
    RememberedReroute(w, states, ticks, k, i, j);
  }

  // ---------- Placed flows and pruning ----------

  /** A stored path whose edges are all in the graph is still a path of the graph. */
  lemma StoredPathWalks(w: World, t: Tick, k: PathKey, p: Path, g: PceGraph)
    requires ValidTick(w, t) && PathOk(w, k, p)
    requires g.nodes == t.graph.nodes
    requires forall id :: id in p.edges ==> id in g.edges && id in t.graph.edges && g.edges[id] == t.graph.edges[id]
    ensures Walk(g, k.flow.source, p.edges, k.flow.sink)
  {
    assert Visits(g, p.nodes, p.edges);
    WalkNodes(g, k.flow.source, p.nodes, p.edges, k.flow.sink);
  }

  lemma PlacedEdgeKept(w: World, t: Tick, reg: Registry, paths: map<PathKey, Path>, k: PathKey, pruned: PceGraph, id: PceEdgeId)
    requires ValidTick(w, t) && Safe(w.hose, BoundsOf(w), reg) && Indexed(reg, paths)
    requires IsPruned(w.hose, reg, t.graph, k, pruned)
    requires k in paths && id in paths[k].edges && id in t.graph.edges
    ensures id in pruned.edges
  {
    BookedIffFound(reg, id, k);
    BookableOfLink(w.links[id.link]);
    assert t.graph.edges[id].id == id && Bookable(t.graph.edges[id]) == BoundsOf(w)(id);
    PruningKeepsBookedEdges(w.hose, BoundsOf(w), reg, t.graph, k, pruned, id);
  }

  /** A flow already placed whose links are all up keeps its whole path through pruning, so the search
      can fail for it only because the live costs make that path cost infinity. */
  lemma PlacedFlowsAreNotPruned(w: World, t: Tick, d: Demand, ev: Event, s: State, s': State)
    requires ValidTick(w, t) && Inv(w, s) && Served(w, t, d, ev, s, s')
    requires KeyOf(d) in s.paths && forall id :: id in s.paths[KeyOf(d)].edges ==> id in t.graph.edges
    ensures forall id :: id in s.paths[KeyOf(d)].edges ==> id in ev.pruned.edges
    ensures ev.found.Err? ==>
              WalkCost(EdgeWeights(ev.pruned, Observed(s.costs, ev.telemetry), d.objective), s.paths[KeyOf(d)].edges).Inf?
  {
    forall id | id in s.paths[KeyOf(d)].edges
      ensures id in ev.pruned.edges
    {
      PlacedEdgeKept(w, t, s.registry, s.paths, KeyOf(d), ev.pruned, id);
    }
    StoredPathWalks(w, t, KeyOf(d), s.paths[KeyOf(d)], ev.pruned);
    WalkEdges(ev.pruned, d.from, s.paths[KeyOf(d)].edges, d.to);
  }

  /** A path taken from the pruned graph is always admitted: `Move` cannot fail inside a tick. */
  lemma FoundPathsAreAdmitted(w: World, t: Tick, d: Demand, ev: Event, s: State, s': State)
    requires ValidTick(w, t) && ValidDemand(w.hose, d) && NonNegativeCosts(ev.telemetry)
    requires Inv(w, s) && Served(w, t, d, ev, s, s') && ev.found.Ok?
    ensures AllFit(w.hose, s.registry, t.graph, ev.found.value.edges, KeyOf(d))
    ensures KeyOf(d) in s'.paths
  {
    ObservedNonNegative(s.costs, ev.telemetry);
    EdgeWeightsWeigh(ev.pruned, Observed(s.costs, ev.telemetry), d.objective);
    FoundPath(w, t, d, s.registry, ev.pruned, EdgeWeights(ev.pruned, Observed(s.costs, ev.telemetry), d.objective), ev.found.value);
    DecisionFacts(Find(t.previous, KeyOf(d)), Score(t, d), ev.found, d.color, Find(s.lastReroute, KeyOf(d)), t.now, w.holdDown);
  }

  /** The rule by which a found path replaces the stored one, or becomes it. */
  ghost predicate Wins(previous: Option<Path>, score: Cost, p: Path, last: Option<int>, now: int, hold: int) {
    || previous.None?
    || SameRoute(previous.value, p)
    || score.Inf?
    || (score.v >= HYSTERESIS * p.cost && (last.None? || now - last.value >= hold))
  }

  lemma DecidedRoute(previous: Option<Path>, score: Cost, p: Path, color: Color, last: Option<int>, now: int, hold: int)
    ensures var decision, q := Decide(previous, score, Ok(p), color, last, now, hold), p.(color := color);
            && !decision.Leave?
            && SameRoute(decision.path, if Wins(previous, score, q, last, now, hold) then q else previous.value)
  {
  }

  ghost predicate TakesOver(w: World, t: Tick, d: Demand, s: State, p: Path) {
    Wins(Find(s.paths, KeyOf(d)), Score(t, d), p, Find(s.lastReroute, KeyOf(d)), t.now, w.holdDown)
  }

  /** Exactly when a demand gets the path found for it: on first placement, when it is the stored one,
      or when the stored one is broken or both dear and rested enough; otherwise the stored route
      stays, and without a path found nothing changes. */
  lemma ServedExactly(w: World, t: Tick, d: Demand, ev: Event, s: State, s': State)
    requires ValidTick(w, t) && ValidDemand(w.hose, d) && NonNegativeCosts(ev.telemetry)
    requires Inv(w, s) && SameAt(t.previous, s.paths, KeyOf(d)) && Served(w, t, d, ev, s, s')
    ensures ev.found.Err? ==> s'.paths == s.paths && s'.registry == s.registry && s'.lastReroute == s.lastReroute
    ensures ev.found.Ok? ==>
      var p := ev.found.value.(color := d.color);
      KeyOf(d) in s'.paths && SameRoute(s'.paths[KeyOf(d)], if TakesOver(w, t, d, s, p) then p else s.paths[KeyOf(d)])
  {
    if ev.found.Ok? {
      FoundPathsAreAdmitted(w, t, d, ev, s, s');
      RouteOnceAdmitted(w, t, d, s, s.(costs := Observed(s.costs, ev.telemetry)), s', ev.found.value);
    }
  }

  lemma RouteOnceAdmitted(w: World, t: Tick, d: Demand, s: State, seen: State, s': State, p: Path)
    requires SameAt(t.previous, s.paths, KeyOf(d)) && seen.registry == s.registry
    requires Carried(w, t, d, Decided(w, t, d, s, Ok(p)), seen, s')
    requires AllFit(w.hose, s.registry, t.graph, p.edges, KeyOf(d))
    ensures KeyOf(d) in s'.paths
    ensures SameRoute(s'.paths[KeyOf(d)], if TakesOver(w, t, d, s, p.(color := d.color)) then p.(color := d.color) else s.paths[KeyOf(d)])
  {
    var decision := Decided(w, t, d, s, Ok(p));
    DecidedRoute(Find(t.previous, KeyOf(d)), Score(t, d), p, d.color, Find(s.lastReroute, KeyOf(d)), t.now, w.holdDown);
    CarriedRoute(w, t, d, decision, seen, s', p);
  }

  lemma CarriedRoute(w: World, t: Tick, d: Demand, decision: Decision, s: State, s': State, p: Path)
    requires Carried(w, t, d, decision, s, s') && !decision.Leave?
    requires AllFit(w.hose, s.registry, t.graph, p.edges, KeyOf(d)) && (decision.Switch? ==> decision.path == p.(color := d.color))
    ensures KeyOf(d) in s'.paths && s'.paths[KeyOf(d)] == decision.path
  {
  }

  // ---------- Between the demands of a run ----------

  /** What serving one demand meets: the invariant, and at its key the path from before the tick. */
  ghost predicate Meets(w: World, rec: Record, j: nat)
    requires j < |rec.demands| == |rec.events| && |rec.mids| == |rec.demands| + 1
  {
    && ValidTick(w, rec.tick) && ValidDemand(w.hose, rec.demands[j]) && NonNegativeCosts(rec.events[j].telemetry)
    && Meeting(w, rec.tick, rec.demands[j], rec.events[j], rec.mids[j], rec.mids[j + 1])
  }

  lemma KeyNotYetServed(demands: seq<Demand>, j: nat)
    requires DistinctKeys(demands) && j < |demands|
    ensures !Mentions(demands[..j], KeyOf(demands[j]))
  {
    forall i | 0 <= i < j
      ensures KeyOf(demands[..j][i]) != KeyOf(demands[j])
    {
      assert demands[..j][i] == demands[i];
    }
  }

  ghost predicate Meeting(w: World, t: Tick, d: Demand, ev: Event, s: State, s': State) {
    Inv(w, s) && SameAt(t.previous, s.paths, KeyOf(d)) && Served(w, t, d, ev, s, s')
  }

  lemma LastMeets(w: World, t: Tick, demands: seq<Demand>, events: seq<Event>, mids: seq<State>)
    requires ValidWorld(w) && ValidTick(w, t) && AllValid(w.hose, demands, events)
    requires AllServed(w, t, demands, events, mids) && demands != []
    requires Inv(w, mids[0]) && t.previous == mids[0].paths
    ensures var n := |demands| - 1; Meeting(w, t, demands[n], events[n], mids[n], mids[n + 1])
  {
    var n := |demands| - 1;
    AllValidPrefix(w.hose, demands, events);
    AllServedKeep(w, t, demands[..n], events[..n], mids[..n + 1]);
    KeyNotYetServed(demands, n);
  }

  lemma {:induction false} MidMeets(w: World, t: Tick, demands: seq<Demand>, events: seq<Event>, mids: seq<State>, j: nat)
    requires ValidWorld(w) && ValidTick(w, t) && AllValid(w.hose, demands, events)
    requires AllServed(w, t, demands, events, mids)
    requires Inv(w, mids[0]) && t.previous == mids[0].paths && j < |demands|
    ensures Meeting(w, t, demands[j], events[j], mids[j], mids[j + 1])
    decreases |demands|
  {
    var n := |demands| - 1;
    if j == n {
      LastMeets(w, t, demands, events, mids);
    } else {
      AllValidPrefix(w.hose, demands, events);
      AllServedPrefix(w, t, demands, events, mids);
      var before, met, seen := demands[..n], events[..n], mids[..n + 1];
      MidMeets(w, t, before, met, seen, j);
      assert before[j] == demands[j] && met[j] == events[j] && seen[j] == mids[j] && seen[j + 1] == mids[j + 1];
    }
  }

  lemma AllServedPrefix(w: World, t: Tick, demands: seq<Demand>, events: seq<Event>, mids: seq<State>)
    requires AllServed(w, t, demands, events, mids) && demands != []
    ensures var n := |demands| - 1; AllServed(w, t, demands[..n], events[..n], mids[..n + 1])
  {
  }

  lemma TickMeets(w: World, s: State, rec: Record, s': State, j: nat)
    requires ValidWorld(w) && Inv(w, s) && Ticked(w, s, rec, s') && j < |rec.demands|
    ensures |rec.demands| == |rec.events| && |rec.mids| == |rec.demands| + 1 && Meets(w, rec, j)
  {
    ObservedNonNegative(s.costs, rec.telemetry);
    PricedNonNegative(w, rec.tick.graph, s.registry, Observed(s.costs, rec.telemetry));
    MidMeets(w, rec.tick, rec.demands, rec.events, rec.mids, j);
  }

  /** Every demand of every tick of every run meets these conditions. */
  lemma RunMeets(w: World, states: seq<State>, ticks: seq<Record>, i: nat, j: nat)
    requires Run(w, states, ticks) && i < |ticks| && j < |ticks[i].demands|
    ensures |ticks[i].demands| == |ticks[i].events| && |ticks[i].mids| == |ticks[i].demands| + 1 && Meets(w, ticks[i], j)
  {
    RunKeepsInv(w, states, ticks, i);
    assert StepAt(w, states, ticks, i);
    TickMeets(w, states[i], ticks[i], states[i + 1], j);
  }

  /** So, between any two demands of any run, a placed flow whose links are up is never pruned away,
      every path found is admitted, and the found path replaces the stored one exactly when the rule
      says so. */
  lemma RunsServeExactly(w: World, states: seq<State>, ticks: seq<Record>, i: nat, j: nat)
    requires Run(w, states, ticks) && i < |ticks| && j < |ticks[i].demands|
    ensures |ticks[i].demands| == |ticks[i].events| && |ticks[i].mids| == |ticks[i].demands| + 1
    ensures var t, d, ev, s, s' := ticks[i].tick, ticks[i].demands[j], ticks[i].events[j], ticks[i].mids[j], ticks[i].mids[j + 1];
            && (KeyOf(d) in s.paths && (forall id :: id in s.paths[KeyOf(d)].edges ==> id in t.graph.edges) ==>
                  forall id :: id in s.paths[KeyOf(d)].edges ==> id in ev.pruned.edges)
            && (ev.found.Err? ==> s'.paths == s.paths && s'.registry == s.registry && s'.lastReroute == s.lastReroute)
            && (ev.found.Ok? ==>
                  var p := ev.found.value.(color := d.color);
                  && AllFit(w.hose, s.registry, t.graph, p.edges, KeyOf(d))
                  && KeyOf(d) in s'.paths && SameRoute(s'.paths[KeyOf(d)], if TakesOver(w, t, d, s, p) then p else s.paths[KeyOf(d)]))
  {
    RunMeets(w, states, ticks, i, j);
    var t, d, ev, s, s' := ticks[i].tick, ticks[i].demands[j], ticks[i].events[j], ticks[i].mids[j], ticks[i].mids[j + 1];
    if KeyOf(d) in s.paths && forall id :: id in s.paths[KeyOf(d)].edges ==> id in t.graph.edges {
      PlacedFlowsAreNotPruned(w, t, d, ev, s, s');
    }
    if ev.found.Ok? {
      FoundPathsAreAdmitted(w, t, d, ev, s, s');
    }
    ServedExactly(w, t, d, ev, s, s');
  }

  // ---------- What makes a bulk path broken ----------

  lemma {:induction false} InfiniteWalk(weights: Weights, edges: seq<PceEdgeId>)
    requires forall id :: id in edges ==> id in weights
    ensures WalkCost(weights, edges).Inf? <==> exists id :: id in edges && weights[id].Inf?
    decreases |edges|
  {
    if edges != [] {
      var n := |edges| - 1;
      InfiniteWalk(weights, edges[..n]);
      assert edges == edges[..n] + [edges[n]];
    }
  }

  const BULK_OBJECTIVE: Objective := map[StaticUtilization := 1.0]

  lemma BulkWeight(c: CostVector)
    ensures WeightedCost(BULK_OBJECTIVE, Some(c)).Inf? <==> StaticUtilization in c && c[StaticUtilization].Inf?
  {
    var n := |SORTED_DIMENSIONS|;
    assert WeightedSum(BULK_OBJECTIVE, c, 3) == Finite(0.0) by {
      assert WeightedSum(BULK_OBJECTIVE, c, 1) == Finite(0.0);
      assert WeightedSum(BULK_OBJECTIVE, c, 2) == Finite(0.0);
    }
    assert WeightedSum(BULK_OBJECTIVE, c, 5) == WeightedSum(BULK_OBJECTIVE, c, 4);
  }

  /** A link is exactly full: its load is all that may be booked on it. */
  ghost predicate Full(w: World, reg: Registry, e: PceEdgeId) {
    Load(w.hose, Booked(reg, e)) == BoundsOf(w)(e)
  }

  lemma BulkEdgeWeight(w: World, t: Tick, reg: Registry, costs: CostGraph, e: PceEdgeId)
    requires ValidWorld(w) && ValidTick(w, t) && Safe(w.hose, BoundsOf(w), reg) && e in t.graph.edges
    requires w.links[e.link].bandwidth >= 0.0
    ensures EdgeWeights(t.graph, Priced(w, t.graph, reg, costs), BULK_OBJECTIVE)[e].Inf? <==>
            e.link !in costs || Full(w, reg, e)
  {
    var link := w.links[e.link];
    var priced := Priced(w, t.graph, reg, costs);
    assert t.graph.edges[e] == LinkEdge(link) && t.graph.edges[e].id == e && link.id == e.link;
    assert [link][..0] == [];
    assert EdgeCost([link], priced) == if e.link in priced then Some(priced[e.link]) else None;
    if e.link in costs {
      BulkWeight(priced[e.link]);
      LoadMonotone(w.hose, Booked(reg, e), Booked(reg, e));
      if Booked(reg, e) == {} {
        assert TenantsOf({}) == {};
      }
      PricedOutIffFull(Load(w.hose, Booked(reg, e)), link.bandwidth);
    }
  }

  ghost predicate Unusable(w: World, g: PceGraph, reg: Registry, costs: CostGraph, e: PceEdgeId) {
    e !in g.edges || e.link !in costs || Full(w, reg, e)
  }

  lemma BulkRescore(w: World, t: Tick, reg: Registry, costs: CostGraph, edges: seq<PceEdgeId>)
    requires ValidWorld(w) && ValidTick(w, t) && Safe(w.hose, BoundsOf(w), reg)
    requires forall l :: l in w.links ==> w.links[l].bandwidth >= 0.0
    ensures Rescored(t.graph, EdgeWeights(t.graph, Priced(w, t.graph, reg, costs), BULK_OBJECTIVE), edges).Inf? <==>
            exists e :: e in edges && Unusable(w, t.graph, reg, costs, e)
  {
    if forall id :: id in edges ==> id in t.graph.edges {
      var weights := EdgeWeights(t.graph, Priced(w, t.graph, reg, costs), BULK_OBJECTIVE);
      forall e | e in edges
        ensures weights[e].Inf? <==> Unusable(w, t.graph, reg, costs, e)
      {
        BulkEdgeWeight(w, t, reg, costs, e);
      }
      InfiniteWalk(weights, edges);
    } else {
      var e :| e in edges && e !in t.graph.edges;
      assert Unusable(w, t.graph, reg, costs, e);
    }
  }

  /** For the default class a stored path counts as broken exactly when one of its links is down,
      has no cost entry, or was exactly full when the tick began. */
  lemma BulkBrokenIff(w: World, s: State, rec: Record, s': State, d: Demand)
    requires ValidWorld(w) && Inv(w, s) && Ticked(w, s, rec, s')
    requires forall l :: l in w.links ==> w.links[l].bandwidth >= 0.0
    requires d.objective == BULK_OBJECTIVE && KeyOf(d) in s.paths
    ensures Score(rec.tick, d).Inf? <==>
            exists e :: e in s.paths[KeyOf(d)].edges && Unusable(w, rec.tick.graph, s.registry, s.costs, e)
  {
    var costs := Observed(s.costs, rec.telemetry);
    BulkRescore(w, rec.tick, s.registry, costs, s.paths[KeyOf(d)].edges);
    forall e
      ensures Unusable(w, rec.tick.graph, s.registry, s.costs, e) <==> Unusable(w, rec.tick.graph, s.registry, costs, e)
    {
    }
  }
}
