/** What every sequence of reservation moves keeps. */
module Admission {
  import opened FiniteSums
  import opened Topology
  import opened Hose
  import opened HoseWorstCase
  import opened Ledger
  import opened BandwidthRegistry

  /** Bookable bandwidth of an edge, by identifier. */
  type Bounds = PceEdgeId -> real

  /** Every booked edge carries at most what may be booked on it. */
  ghost predicate Safe(h: Hose, bounds: Bounds, reg: Registry) {
    forall e :: Booked(reg, e) != {} ==> Load(h, Booked(reg, e)) <= bounds(e)
  }

  lemma BookedAfterMove(reg: Registry, reg': Registry, from: set<PceEdgeId>, to: set<PceEdgeId>, k: PathKey, r: Reservation, e: PceEdgeId)
    requires Moved(reg, reg', from, to, k, r)
    ensures e in to ==> Booked(reg', e) == Booked(reg, e) + {k}
    ensures e !in to && e in from ==> Booked(reg', e) == Booked(reg, e) - {k}
    ensures e !in to && e !in from ==> Booked(reg', e) == Booked(reg, e)
  {
    forall x
      ensures x in Booked(reg, e) <==> Lookup(reg, e, x).Some?
      ensures x in Booked(reg', e) <==> Lookup(reg', e, x).Some?
    {
      BookedIffFound(reg, e, x);
      BookedIffFound(reg', e, x);
    }
  }

  ghost predicate Bounded(bounds: Bounds, edges: seq<PceEdge>) {
    forall e :: e in edges ==> Bookable(e) == bounds(e.id)
  }

  /** What admission decides: a flow fits on a link exactly when all traffic that the contracts allow
      between the PoPs booked on it, the newcomer's included, stays within 95 percent of the link. */
  lemma FitsIff(h: Hose, reg: Registry, link: Edge, k: PathKey)
    requires NonNegative(h)
    ensures var pairs := AllPairs(Booked(reg, LinkEdgeId(link)) + {k});
            Fits(h, reg, LinkEdge(link), k) <==> forall m :: Admissible(h, pairs, m) ==> Sum(pairs, m) <= 0.95 * link.bandwidth
  {
    LoadIsWorstCase(h, Booked(reg, LinkEdgeId(link)) + {k});
    assert Bookable(LinkEdge(link)) == 0.95 * link.bandwidth;
  }

  /** An admitted move leaves no edge overbooked, and raises the load of no edge outside `to`. */
  lemma MoveStaysSafe(h: Hose, bounds: Bounds, reg: Registry, reg': Registry, from: set<PceEdgeId>, to: seq<PceEdge>, k: PathKey, r: Reservation)
    requires NonNegative(h) && Safe(h, bounds, reg)
    requires Bounded(bounds, to)
    requires forall e :: e in to ==> Fits(h, reg, e, k)
    requires Moved(reg, reg', from, Ids(to), k, r)
    ensures Safe(h, bounds, reg')
    ensures forall e :: e !in Ids(to) ==> Load(h, Booked(reg', e)) <= Load(h, Booked(reg, e))
  {
    forall e
      ensures Booked(reg', e) != {} ==> Load(h, Booked(reg', e)) <= bounds(e)
      ensures e !in Ids(to) ==> Load(h, Booked(reg', e)) <= Load(h, Booked(reg, e))
    {
      BookedAfterMove(reg, reg', from, Ids(to), k, r, e);
      if e in Ids(to) {
        var edge :| edge in to && edge.id == e;
        assert Fits(h, reg, edge, k);
      } else {
        LoadMonotone(h, Booked(reg', e), Booked(reg, e));
      }
    }
  }

  lemma MoveStaysConsistent(h: Hose, reg: Registry, reg': Registry, from: set<PceEdgeId>, to: set<PceEdgeId>, k: PathKey, r: Reservation)
    requires Consistent(h, reg) && Moved(reg, reg', from, to, k, r)
    requires r.key == k.flow && Agrees(h, k.tenant, r)
    ensures Consistent(h, reg')
  {
    forall e, t, f | e in reg' && t in reg'[e] && f in reg'[e][t]
      ensures reg'[e][t][f].key == f && Agrees(h, t, reg'[e][t][f])
    {
      assert Lookup(reg', e, PathKey(t, f)) == Some(reg'[e][t][f]);
      if PathKey(t, f) != k || (e !in to) {
        assert Lookup(reg, e, PathKey(t, f)) == Some(reg'[e][t][f]);
      }
    }
  }

  /** One call of `Move` as its contract describes it. */
  datatype MoveCall = MoveCall(from: set<PceEdgeId>, to: seq<PceEdge>, key: PathKey, reservation: Reservation)

  ghost predicate MoveStep(h: Hose, bounds: Bounds, reg: Registry, c: MoveCall, reg': Registry) {
    && Bounded(bounds, c.to)
    && c.reservation.key == c.key.flow && Agrees(h, c.key.tenant, c.reservation)
    && if forall e :: e in c.to ==> Fits(h, reg, e, c.key)
       then Moved(reg, reg', c.from, Ids(c.to), c.key, c.reservation)
       else reg' == reg
  }

  /** The registries that `calls` produce one after the other, starting from an empty one. */
  ghost predicate MoveRun(h: Hose, bounds: Bounds, regs: seq<Registry>, calls: seq<MoveCall>) {
    |regs| == |calls| + 1 &&
    if calls == [] then regs[0] == map[]
    else
      var n := |calls|;
      && MoveRun(h, bounds, regs[..n], calls[..n - 1])
      && MoveStep(h, bounds, regs[n - 1], calls[n - 1], regs[n])
  }

  lemma MoveStepStaysSafe(h: Hose, bounds: Bounds, reg: Registry, c: MoveCall, reg': Registry)
    requires NonNegative(h) && MoveStep(h, bounds, reg, c, reg')
    requires Safe(h, bounds, reg) && Consistent(h, reg)
    ensures Safe(h, bounds, reg') && Consistent(h, reg')
  {
    if forall e :: e in c.to ==> Fits(h, reg, e, c.key) {
      MoveStaysSafe(h, bounds, reg, reg', c.from, c.to, c.key, c.reservation);
      MoveStaysConsistent(h, reg, reg', c.from, Ids(c.to), c.key, c.reservation);
    }
  }

  lemma EmptyIsSafe(h: Hose, bounds: Bounds)
    ensures Safe(h, bounds, map[]) && Consistent(h, map[])
  {
  }

  /** Whatever reservations are placed, replaced and released, in any order and from anywhere, no
      booked edge is ever loaded beyond its bookable bandwidth. */
  lemma {:induction false} MoveRunsStaySafe(h: Hose, bounds: Bounds, regs: seq<Registry>, calls: seq<MoveCall>)
    requires NonNegative(h) && MoveRun(h, bounds, regs, calls)
    ensures Safe(h, bounds, regs[|calls|]) && Consistent(h, regs[|calls|])
    decreases |calls|
  {
    var n := |calls|;
    if n == 0 {
      EmptyIsSafe(h, bounds);
    } else {
      var before := regs[..n];
      MoveRunsStaySafe(h, bounds, before, calls[..n - 1]);
      assert before[n - 1] == regs[n - 1];
      MoveStepStaysSafe(h, bounds, regs[n - 1], calls[n - 1], regs[n]);
    }
  }

  /** A path already booked is never pruned away from its own edges while they are in the graph. */
  lemma PruningKeepsBookedEdges(h: Hose, bounds: Bounds, reg: Registry, g: PceGraph, k: PathKey, pruned: PceGraph, id: PceEdgeId)
    requires Safe(h, bounds, reg)
    requires IsPruned(h, reg, g, k, pruned)
    requires id in g.edges && g.edges[id].id == id && Bookable(g.edges[id]) == bounds(id)
    requires k in Booked(reg, id)
    ensures id in pruned.edges
  {
    assert Booked(reg, id) + {k} == Booked(reg, id);
  }
}
