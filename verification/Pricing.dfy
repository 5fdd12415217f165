/** What edges cost: measured dimensions, the reserved-bandwidth dimension, and class objectives. */
module Pricing {
  import opened FiniteSums
  import opened Topology
  import opened Cspf

  /** Cost dimensions in the order their names sort. */
  datatype Dimension = Jitter | Latency | Loss | StaticUtilization | Utilization

  const SORTED_DIMENSIONS := [Jitter, Latency, Loss, StaticUtilization, Utilization]

  type CostVector = map<Dimension, Cost>
  type CostGraph = map<LinkId, CostVector>

  type Objective = map<Dimension, real>

  ghost predicate NonNegativeVector(c: CostVector) {
    forall d :: d in c && c[d].Finite? ==> c[d].v >= 0.0
  }

  ghost predicate NonNegativeCosts(costs: CostGraph) {
    forall l :: l in costs ==> NonNegativeVector(costs[l])
  }

  /** `parseTrafficClasses` rejects weights that are not positive. */
  ghost predicate PositiveWeights(o: Objective) {
    forall d :: d in o ==> o[d] > 0.0
  }

  function Worse(a: Cost, b: Cost): Cost {
    if Less(a, b) then b else a
  }

  /** Dimension by dimension, the worse of two vectors. */
  function WorseVector(a: CostVector, b: CostVector): CostVector {
    map d | d in a.Keys + b.Keys ::
      if d !in b then a[d] else if d !in a then b[d] else Worse(a[d], b[d])
  }

  /** `PCEEdge.Cost`: the worst over the physical links that have a cost. */
  function EdgeCost(edges: seq<Edge>, costs: CostGraph): (r: Option<CostVector>)
    ensures NonNegativeCosts(costs) && r.Some? ==> NonNegativeVector(r.value)
    ensures r.None? <==> forall e :: e in edges ==> e.id !in costs
  {
    if edges == [] then None
    else
      var e := edges[|edges| - 1];
      var rest := EdgeCost(edges[..|edges| - 1], costs);
      assert edges == edges[..|edges| - 1] + [e];
      if e.id !in costs then rest
      else if rest.None? then Some(costs[e.id])
      else Some(WorseVector(rest.value, costs[e.id]))
  }

  ghost predicate Prices(costs: CostGraph, e: Edge, d: Dimension) {
    e.id in costs && d in costs[e.id]
  }

  /** A vector is the worst of the links in every dimension that any of them has: an upper bound that
      one of them attains. */
  ghost predicate IsWorst(edges: seq<Edge>, costs: CostGraph, c: CostVector) {
    && (forall e, d :: e in edges && Prices(costs, e, d) ==> d in c && AtMost(costs[e.id][d], c[d]))
    && (forall d :: d in c ==> exists e :: e in edges && Prices(costs, e, d) && c[d] == costs[e.id][d])
  }

  lemma WorstOfMore(edges: seq<Edge>, costs: CostGraph, c: CostVector, e: Edge)
    requires IsWorst(edges, costs, c) && e.id in costs
    ensures IsWorst(edges + [e], costs, WorseVector(c, costs[e.id]))
  {
    var all, worse := edges + [e], WorseVector(c, costs[e.id]);
    assert forall x :: x in all <==> x in edges || x == e;
    forall x, d | x in all && Prices(costs, x, d)
      ensures d in worse && AtMost(costs[x.id][d], worse[d])
    {
    }
    forall d | d in worse
      ensures exists x :: x in all && Prices(costs, x, d) && worse[d] == costs[x.id][d]
    {
      if d in costs[e.id] && worse[d] == costs[e.id][d] {
        assert Prices(costs, e, d);
      } else {
        var x :| x in edges && Prices(costs, x, d) && c[d] == costs[x.id][d];
        assert x in all;
      }
    }
  }

  lemma {:induction false} EdgeCostIsWorst(edges: seq<Edge>, costs: CostGraph)
    requires EdgeCost(edges, costs).Some?
    ensures IsWorst(edges, costs, EdgeCost(edges, costs).value)
    decreases |edges|
  {
    var front, e := edges[..|edges| - 1], edges[|edges| - 1];
    assert edges == front + [e];
    if EdgeCost(front, costs).Some? {
      EdgeCostIsWorst(front, costs);
      if e.id in costs {
        WorstOfMore(front, costs, EdgeCost(front, costs).value, e);
      }
    } else {
      assert e in edges;
    }
  }

  function Scale(weight: real, c: Cost): Cost {
    if c.Inf? then Inf else Finite(weight * c.v)
  }

  /** Weighted sum over the first `n` dimensions; an unmeasured dimension counts zero. */
  function WeightedSum(o: Objective, c: CostVector, n: nat): (r: Cost)
    requires n <= |SORTED_DIMENSIONS|
    ensures PositiveWeights(o) && NonNegativeVector(c) && r.Finite? ==> r.v >= 0.0
  {
    if n == 0 then Finite(0.0)
    else
      var d := SORTED_DIMENSIONS[n - 1];
      var sum := WeightedSum(o, c, n - 1);
      if d in o && d in c then Add(sum, Scale(o[d], c[d])) else sum
  }

  const COST_EDGE_EPSILON := 1.0

  /** `WeightedCost`: an edge never measured is unusable, and every other edge costs at least the
      epsilon that makes idle paths prefer fewer hops. */
  function WeightedCost(o: Objective, c: Option<CostVector>): (r: Cost)
    ensures c.None? ==> r == Inf
    ensures PositiveWeights(o) && c.Some? && NonNegativeVector(c.value) && r.Finite? ==> r.v >= 1.0
  {
    if c.None? then Inf
    else Add(Finite(COST_EDGE_EPSILON), WeightedSum(o, c.value, |SORTED_DIMENSIONS|))
  }

  /** What one dimension contributes to the weighted cost. */
  function Contribution(o: Objective, c: CostVector, d: Dimension): real {
    if d in o && d in c && c[d].Finite? then o[d] * c[d].v else 0.0
  }

  ghost function Contributions(o: Objective, c: CostVector): Dimension -> real {
    d => Contribution(o, c, d)
  }

  /** The dimensions both weighted and measured, among the first `n`. */
  ghost function Weighted(o: Objective, c: CostVector, n: nat): set<Dimension>
    requires n <= |SORTED_DIMENSIONS|
  {
    set d | d in o && d in c && d in SORTED_DIMENSIONS[..n]
  }

  lemma OneMoreDimension(o: Objective, c: CostVector, n: nat)
    requires 0 < n <= |SORTED_DIMENSIONS|
    ensures var d := SORTED_DIMENSIONS[n - 1];
            d !in Weighted(o, c, n - 1) && Weighted(o, c, n) == Weighted(o, c, n - 1) + if d in o && d in c then {d} else {}
  {
    var d := SORTED_DIMENSIONS[n - 1];
    assert SORTED_DIMENSIONS[..n] == SORTED_DIMENSIONS[..n - 1] + [d];
    assert d !in SORTED_DIMENSIONS[..n - 1];
  }

  lemma {:induction false} InfiniteIff(o: Objective, c: CostVector, n: nat)
    requires n <= |SORTED_DIMENSIONS|
    ensures WeightedSum(o, c, n).Inf? <==> exists d :: d in Weighted(o, c, n) && c[d].Inf?
  {
    if n > 0 {
      InfiniteIff(o, c, n - 1);
      OneMoreDimension(o, c, n);
    }
  }

  lemma {:induction false} FiniteIs(o: Objective, c: CostVector, n: nat)
    requires n <= |SORTED_DIMENSIONS| && WeightedSum(o, c, n).Finite?
    ensures WeightedSum(o, c, n).v == Sum(Weighted(o, c, n), Contributions(o, c))
  {
    if n > 0 {
      var d := SORTED_DIMENSIONS[n - 1];
      FiniteIs(o, c, n - 1);
      OneMoreDimension(o, c, n);
      if d in o && d in c {
        SumAdd(Weighted(o, c, n - 1), d, Contributions(o, c));
      } else {
        assert Weighted(o, c, n) == Weighted(o, c, n - 1);
      }
    }
  }

  lemma AllDimensions(d: Dimension)
    ensures d in SORTED_DIMENSIONS
  {
    assert d == SORTED_DIMENSIONS[0] || d == SORTED_DIMENSIONS[1] || d == SORTED_DIMENSIONS[2] ||
           d == SORTED_DIMENSIONS[3] || d == SORTED_DIMENSIONS[4];
  }

  /** The cost of a measured edge is the epsilon plus the weighted sum of its measured dimensions, in
      whatever order they are added, and infinite exactly when one of them is. */
  lemma WeightedCostIsSum(o: Objective, c: CostVector)
    ensures WeightedCost(o, Some(c)).Inf? <==> exists d :: d in o && d in c && c[d].Inf?
    ensures WeightedCost(o, Some(c)).Finite? ==>
              WeightedCost(o, Some(c)).v == COST_EDGE_EPSILON + Sum((set d | d in o && d in c), Contributions(o, c))
  {
    var n := |SORTED_DIMENSIONS|;
    InfiniteIff(o, c, n);
    if WeightedSum(o, c, n).Finite? {
      FiniteIs(o, c, n);
    }
    assert SORTED_DIMENSIONS[..n] == SORTED_DIMENSIONS;
    forall d: Dimension
      ensures d in SORTED_DIMENSIONS
    {
      AllDimensions(d);
    }
    assert Weighted(o, c, n) == set d | d in o && d in c;
  }

  function EdgeWeights(g: PceGraph, costs: CostGraph, o: Objective): Weights {
    map id | id in g.edges :: WeightedCost(o, EdgeCost(g.edges[id].realEdges, costs))
  }

  lemma EdgeWeightsWeigh(g: PceGraph, costs: CostGraph, o: Objective)
    requires NonNegativeCosts(costs) && PositiveWeights(o)
    ensures Weighs(g, EdgeWeights(g, costs, o))
  {
  }

  // ---------- Reserved bandwidth as a cost ----------

  const STATIC_UTILIZATION_REF := 0.8

  function Convex(f: real): real
    requires f != 1.0
  {
    f / (1.0 - f)
  }

  function StaticUtilizationCost(f: real): Cost {
    if f >= 1.0 then Inf else Finite(Convex(f) / Convex(STATIC_UTILIZATION_REF))
  }

  /** The reserved-bandwidth cost of a link whose edge carries `load`. */
  function ReservedCost(load: real, bandwidth: real): Cost {
    var capacity := bandwidth * (1.0 - CAPACITY_HEADROOM);
    if capacity > 0.0 then StaticUtilizationCost(load / capacity) else Inf
  }

  /** Divisions of reals, isolated from everything else. */
  lemma DivideBy(a: real, b: real)
    requires b > 0.0
    ensures a / b >= 1.0 <==> a >= b
    ensures a >= 0.0 ==> a / b >= 0.0
  {
    var q := a / b;
    assert q * b == a;
  }

  /** Within its bookable bandwidth a link is priced out exactly when it is full. */
  lemma PricedOutIffFull(load: real, bandwidth: real)
    requires 0.0 <= load <= bandwidth * (1.0 - CAPACITY_HEADROOM)
    ensures ReservedCost(load, bandwidth).Inf? <==> load == bandwidth * (1.0 - CAPACITY_HEADROOM)
  {
    var capacity := bandwidth * (1.0 - CAPACITY_HEADROOM);
    if capacity > 0.0 {
      DivideBy(load, capacity);
    }
  }

  /** A link is free of charge exactly when nothing is reserved on it; below its bookable bandwidth
      any reservation costs more than nothing. */
  lemma IdleIffFree(load: real, bandwidth: real)
    requires bandwidth > 0.0 && load >= 0.0
    ensures ReservedCost(load, bandwidth) == Finite(0.0) <==> load == 0.0
    ensures 0.0 < load < bandwidth * (1.0 - CAPACITY_HEADROOM) ==>
              ReservedCost(load, bandwidth).Finite? && ReservedCost(load, bandwidth).v > 0.0
  {
    var capacity := bandwidth * (1.0 - CAPACITY_HEADROOM);
    DivideBy(load, capacity);
    ZeroQuotient(load, capacity);
    var f := load / capacity;
    if f < 1.0 {
      ZeroQuotient(f, 1.0 - f);
      DivideBy(f, 1.0 - f);
      ZeroQuotient(Convex(f), Convex(STATIC_UTILIZATION_REF));
      DivideBy(Convex(f), Convex(STATIC_UTILIZATION_REF));
    }
  }

  /** Below the bookable bandwidth the cost is the load over four times what is left. */
  lemma ReservedCostIs(load: real, bandwidth: real)
    requires 0.0 <= load < 0.95 * bandwidth
    ensures ReservedCost(load, bandwidth).Finite?
    ensures ReservedCost(load, bandwidth).v * (4.0 * (0.95 * bandwidth - load)) == load
  {
    var capacity := bandwidth * (1.0 - CAPACITY_HEADROOM);
    assert capacity == 0.95 * bandwidth;
    DivideBy(load, capacity);
    var f := load / capacity;
    assert f * capacity == load;
    ConvexTimes(f, capacity, load);
    assert Convex(STATIC_UTILIZATION_REF) == 4.0;
  }

  lemma ConvexTimes(f: real, capacity: real, load: real)
    requires f < 1.0 && f * capacity == load
    ensures (Convex(f) / 4.0) * (4.0 * (capacity - load)) == load
  {
    var c := Convex(f);
    assert c * (1.0 - f) == f;
    assert capacity - load == (1.0 - f) * capacity;
    assert (c / 4.0) * (4.0 * (capacity - load)) == c * (capacity - load);
    assert c * ((1.0 - f) * capacity) == (c * (1.0 - f)) * capacity;
  }

  /** So the reference load, 80 percent of the bookable bandwidth, costs one. */
  lemma ReferenceCostsOne(bandwidth: real)
    requires bandwidth > 0.0
    ensures ReservedCost(0.8 * (0.95 * bandwidth), bandwidth) == Finite(1.0)
  {
    var load := 0.8 * (0.95 * bandwidth);
    ReservedCostIs(load, bandwidth);
    IsOne(ReservedCost(load, bandwidth).v, 4.0 * (0.95 * bandwidth - load), load);
  }

  lemma IsOne(v: real, x: real, y: real)
    requires x == y > 0.0 && v * x == y
    ensures v == 1.0
  {
    assert (v - 1.0) * x == v * x - x;
    ZeroProduct(v - 1.0, x);
  }

  lemma ZeroProduct(a: real, b: real)
    requires b > 0.0 && a * b == 0.0
    ensures a == 0.0
  {
  }

  lemma ZeroQuotient(a: real, b: real)
    requires b > 0.0
    ensures a / b == 0.0 <==> a == 0.0
  {
    var q := a / b;
    assert q * b == a;
  }

  /** Reserving more never makes a link cheaper, and a cost is never negative. */
  lemma ReservedCostMonotone(a: real, b: real, bandwidth: real)
    requires 0.0 <= a <= b
    ensures AtMost(ReservedCost(a, bandwidth), ReservedCost(b, bandwidth))
    ensures AtMost(Finite(0.0), ReservedCost(a, bandwidth))
  {
    var capacity := bandwidth * (1.0 - CAPACITY_HEADROOM);
    if capacity > 0.0 {
      var x, y := a / capacity, b / capacity;
      DivideBy(a, capacity);
      DivideBy(b, capacity);
      CrossDivide(a, capacity, b, capacity);
      if y < 1.0 {
        ConvexMonotone(x, y);
      } else if x < 1.0 {
        ConvexMonotone(x, x);
      }
    }
  }

  lemma ConvexMonotone(x: real, y: real)
    requires 0.0 <= x <= y < 1.0
    ensures 0.0 <= Convex(x) <= Convex(y)
  {
    DivideBy(x, 1.0 - x);
    CrossDivide(x, 1.0 - x, y, 1.0 - y);
  }

  lemma CrossDivide(a: real, b: real, c: real, d: real)
    requires b > 0.0 && d > 0.0 && a * d <= c * b
    ensures a / b <= c / d
  {
    var p, q := a / b, c / d;
    assert p * b == a && q * d == c;
    assert (q - p) * (b * d) == c * b - a * d;
    assert b * d > 0.0;
  }
}
