/** The reservation is not only enough, it is no more than the contracts can call for: some traffic
    between the reserved PoPs, within all contracts, uses all of it. */
module HoseWorstCase {
  import opened FiniteSums
  import opened Topology
  import opened Hose
  import opened Transport

  // ---------- Only the ends matter ----------

  /** Every source of a class paired with every sink of it. */
  ghost function Pairs(flows: set<FlowKey>): set<FlowKey> {
    set a, b | a in flows && b in flows && a.color == b.color :: FlowKey(a.source, b.sink, a.color)
  }

  ghost predicate SameEnds(a: set<FlowKey>, b: set<FlowKey>) {
    Colors(a) == Colors(b) && forall l :: Sources(a, l) == Sources(b, l) && Sinks(a, l) == Sinks(b, l)
  }

  lemma PairOf(flows: set<FlowKey>, a: FlowKey, b: FlowKey)
    requires a in flows && b in flows && a.color == b.color
    ensures FlowKey(a.source, b.sink, a.color) in Pairs(flows)
  {
  }

  lemma PairsSources(flows: set<FlowKey>, l: Color)
    ensures Sources(Pairs(flows), l) == Sources(flows, l)
  {
    forall p | p in Sources(flows, l)
      ensures p in Sources(Pairs(flows), l)
    {
      var k :| k in flows && k.color == l && k.source == p;
      PairOf(flows, k, k);
    }
  }

  lemma PairsSinks(flows: set<FlowKey>, l: Color)
    ensures Sinks(Pairs(flows), l) == Sinks(flows, l)
  {
    forall p | p in Sinks(flows, l)
      ensures p in Sinks(Pairs(flows), l)
    {
      var k :| k in flows && k.color == l && k.sink == p;
      PairOf(flows, k, k);
    }
  }

  lemma PairsEnds(flows: set<FlowKey>)
    ensures SameEnds(flows, Pairs(flows))
  {
    forall l
      ensures Sources(Pairs(flows), l) == Sources(flows, l) && Sinks(Pairs(flows), l) == Sinks(flows, l)
    {
      PairsSources(flows, l);
      PairsSinks(flows, l);
    }
    forall l | l in Colors(flows)
      ensures l in Colors(Pairs(flows))
    {
      var k :| k in flows && k.color == l;
      PairOf(flows, k, k);
    }
  }

  lemma EndsDecide(h: Hose, t: TenantId, a: set<FlowKey>, b: set<FlowKey>)
    requires SameEnds(a, b)
    ensures TenantReserve(h, t, a) == TenantReserve(h, t, b)
  {
    var f, g := (l: Color) => ColorReserve(h, t, a, l), (l: Color) => ColorReserve(h, t, b, l);
    forall l | l in Colors(a)
      ensures f(l) == g(l)
    {
      assert Sources(a, l) == Sources(b, l) && Sinks(a, l) == Sinks(b, l);
    }
    SumSame(Colors(a), f, g);
  }

  // ---------- Traffic that uses all of it ----------

  ghost function Send(h: Hose, t: TenantId, l: Color): NodeId -> real {
    p => h.send(t, p, l)
  }

  ghost function Recv(h: Hose, t: TenantId, l: Color): NodeId -> real {
    p => h.recv(t, p, l)
  }

  /** `m` ships each class from its sources to its sinks by a plan of its own. */
  ghost predicate Shipped(h: Hose, t: TenantId, flows: set<FlowKey>, m: FlowKey -> real) {
    forall l :: ShippedClass(h, t, flows, l, m)
  }

  ghost function Matrix(l: Color, m: FlowKey -> real): (NodeId, NodeId) -> real {
    (p, q) => m(FlowKey(p, q, l))
  }

  ghost predicate ShippedClass(h: Hose, t: TenantId, flows: set<FlowKey>, l: Color, m: FlowKey -> real) {
    IsPlan(Sources(flows, l), Sinks(flows, l), Send(h, t, l), Recv(h, t, l), Matrix(l, m))
  }

  lemma LeavingRow(flows: set<FlowKey>, p: NodeId, l: Color, m: FlowKey -> real)
    requires p in Sources(flows, l)
    ensures Sum(Leaving(Pairs(flows), p, l), m) == Sum(Sinks(flows, l), Row(Matrix(l, m), p))
  {
    var s, key := Leaving(Pairs(flows), p, l), (k: FlowKey) => k.sink;
    var a :| a in flows && a.color == l && a.source == p;
    assert Image(s, key) == Sinks(flows, l) by {
      forall q | q in Sinks(flows, l)
        ensures q in Image(s, key)
      {
        var b :| b in flows && b.color == l && b.sink == q;
        PairOf(flows, a, b);
        var k := FlowKey(p, q, l);
        assert k in s && key(k) == q;
      }
    }
    SumRename(s, key, Row(Matrix(l, m), p), m);
  }

  lemma EnteringColumn(flows: set<FlowKey>, q: NodeId, l: Color, m: FlowKey -> real)
    requires q in Sinks(flows, l)
    ensures Sum(Entering(Pairs(flows), q, l), m) == Sum(Sources(flows, l), Column(Matrix(l, m), q))
  {
    var s, key := Entering(Pairs(flows), q, l), (k: FlowKey) => k.source;
    var b :| b in flows && b.color == l && b.sink == q;
    assert Image(s, key) == Sources(flows, l) by {
      forall p | p in Sources(flows, l)
        ensures p in Image(s, key)
      {
        var a :| a in flows && a.color == l && a.source == p;
        PairOf(flows, a, b);
        var k := FlowKey(p, q, l);
        assert k in s && key(k) == p;
      }
    }
    SumRename(s, key, Column(Matrix(l, m), q), m);
  }

  lemma ShippedIsWithin(h: Hose, t: TenantId, flows: set<FlowKey>, m: FlowKey -> real)
    requires NonNegative(h) && Shipped(h, t, flows, m)
    ensures Within(h, t, Pairs(flows), m)
  {
    forall k | k in Pairs(flows)
      ensures m(k) >= 0.0
    {
      assert ShippedClass(h, t, flows, k.color, m);
      assert Matrix(k.color, m)(k.source, k.sink) >= 0.0;
    }
    forall p, l
      ensures Sum(Leaving(Pairs(flows), p, l), m) <= h.send(t, p, l)
    {
      assert ShippedClass(h, t, flows, l, m);
      if p in Sources(flows, l) {
        LeavingRow(flows, p, l, m);
      } else {
        PairsSources(flows, l);
        assert Leaving(Pairs(flows), p, l) == {};
      }
    }
    forall p, l
      ensures Sum(Entering(Pairs(flows), p, l), m) <= h.recv(t, p, l)
    {
      assert ShippedClass(h, t, flows, l, m);
      if p in Sinks(flows, l) {
        EnteringColumn(flows, p, l, m);
      } else {
        PairsSinks(flows, l);
        assert Entering(Pairs(flows), p, l) == {};
      }
    }
  }

  lemma SourceImage(flows: set<FlowKey>, l: Color)
    ensures Image(OfColor(Pairs(flows), l), (k: FlowKey) => k.source) == Sources(flows, l)
  {
    var c, key := OfColor(Pairs(flows), l), (k: FlowKey) => k.source;
    PairsSources(flows, l);
    forall p | p in Sources(flows, l)
      ensures p in Image(c, key)
    {
      var k :| k in Pairs(flows) && k.color == l && k.source == p;
      assert k in c && key(k) == p;
    }
  }

  lemma SinkImage(flows: set<FlowKey>, l: Color)
    ensures Image(OfColor(Pairs(flows), l), (k: FlowKey) => k.sink) == Sinks(flows, l)
  {
    var c, key := OfColor(Pairs(flows), l), (k: FlowKey) => k.sink;
    PairsSinks(flows, l);
    forall q | q in Sinks(flows, l)
      ensures q in Image(c, key)
    {
      var k :| k in Pairs(flows) && k.color == l && k.sink == q;
      assert k in c && key(k) == q;
    }
  }

  lemma AllSent(h: Hose, t: TenantId, flows: set<FlowKey>, l: Color, m: FlowKey -> real)
    requires UsesSupplies(Sources(flows, l), Sinks(flows, l), Send(h, t, l), Matrix(l, m))
    ensures Sum(OfColor(Pairs(flows), l), m) == SendSum(h, t, flows, l)
  {
    var c, key := OfColor(Pairs(flows), l), (k: FlowKey) => k.source;
    SourceImage(flows, l);
    forall p | p in Sources(flows, l)
      ensures Send(h, t, l)(p) == Sum(Fiber(c, key, p), m)
    {
      assert Fiber(c, key, p) == Leaving(Pairs(flows), p, l);
      LeavingRow(flows, p, l, m);
    }
    SumPartition(c, key, m, Send(h, t, l));
    SumSame(Sources(flows, l), Send(h, t, l), p => h.send(t, p, l));
  }

  lemma AllReceived(h: Hose, t: TenantId, flows: set<FlowKey>, l: Color, m: FlowKey -> real)
    requires MeetsDemands(Sources(flows, l), Sinks(flows, l), Recv(h, t, l), Matrix(l, m))
    ensures Sum(OfColor(Pairs(flows), l), m) == RecvSum(h, t, flows, l)
  {
    var c, key := OfColor(Pairs(flows), l), (k: FlowKey) => k.sink;
    SinkImage(flows, l);
    forall q | q in Sinks(flows, l)
      ensures Recv(h, t, l)(q) == Sum(Fiber(c, key, q), m)
    {
      assert Fiber(c, key, q) == Entering(Pairs(flows), q, l);
      EnteringColumn(flows, q, l, m);
    }
    SumPartition(c, key, m, Recv(h, t, l));
    SumSame(Sinks(flows, l), Recv(h, t, l), p => h.recv(t, p, l));
  }

  /** One class carries all that its sources may send, or all that its sinks may take. */
  lemma ClassTotal(h: Hose, t: TenantId, flows: set<FlowKey>, l: Color, m: FlowKey -> real)
    requires NonNegative(h) && Shipped(h, t, flows, m)
    ensures Sum(OfColor(Pairs(flows), l), m) == ColorReserve(h, t, flows, l)
  {
    assert ShippedClass(h, t, flows, l, m);
    ShippedIsWithin(h, t, flows, m);
    ColorBoundBySend(h, t, Pairs(flows), l, m);
    ColorBoundByRecv(h, t, Pairs(flows), l, m);
    PairsSources(flows, l);
    PairsSinks(flows, l);
    if UsesSupplies(Sources(flows, l), Sinks(flows, l), Send(h, t, l), Matrix(l, m)) {
      AllSent(h, t, flows, l, m);
    } else {
      AllReceived(h, t, flows, l, m);
    }
  }

  lemma ShippedTotal(h: Hose, t: TenantId, flows: set<FlowKey>, m: FlowKey -> real)
    requires NonNegative(h) && Shipped(h, t, flows, m)
    ensures Sum(Pairs(flows), m) == TenantReserve(h, t, flows)
  {
    var key := (k: FlowKey) => k.color;
    var part := (l: Color) => ColorReserve(h, t, flows, l);
    PairsEnds(flows);
    assert Image(Pairs(flows), key) == Colors(flows);
    forall l | l in Colors(flows)
      ensures part(l) == Sum(Fiber(Pairs(flows), key, l), m)
    {
      assert Fiber(Pairs(flows), key, l) == OfColor(Pairs(flows), l);
      ClassTotal(h, t, flows, l, m);
    }
    SumPartition(Pairs(flows), key, m, part);
  }

  ghost function ClassPlan(h: Hose, t: TenantId, flows: set<FlowKey>, l: Color): (m: (NodeId, NodeId) -> real)
    requires NonNegative(h)
    ensures IsPlan(Sources(flows, l), Sinks(flows, l), Send(h, t, l), Recv(h, t, l), m)
  {
    PlanExists(h, t, flows, l);
    var m :| IsPlan(Sources(flows, l), Sinks(flows, l), Send(h, t, l), Recv(h, t, l), m);
    m
  }

  lemma PlanExists(h: Hose, t: TenantId, flows: set<FlowKey>, l: Color)
    requires NonNegative(h)
    ensures exists m :: IsPlan(Sources(flows, l), Sinks(flows, l), Send(h, t, l), Recv(h, t, l), m)
  {
    var m := Plan(Sources(flows, l), Sinks(flows, l), Send(h, t, l), Recv(h, t, l));
  }

  /** The traffic that the plans of all classes make up. */
  ghost function Traffic(h: Hose, t: TenantId, flows: set<FlowKey>): FlowKey -> real
    requires NonNegative(h)
  {
    (k: FlowKey) => ClassPlan(h, t, flows, k.color)(k.source, k.sink)
  }

  lemma SamePlan(xs: set<NodeId>, ys: set<NodeId>, supply: NodeId -> real, demand: NodeId -> real, m: (NodeId, NodeId) -> real, m': (NodeId, NodeId) -> real)
    requires IsPlan(xs, ys, supply, demand, m) && forall p, q :: m'(p, q) == m(p, q)
    ensures IsPlan(xs, ys, supply, demand, m')
  {
    forall p
      ensures Sum(ys, Row(m', p)) == Sum(ys, Row(m, p))
    {
      SumSame(ys, Row(m', p), Row(m, p));
    }
    forall q
      ensures Sum(xs, Column(m', q)) == Sum(xs, Column(m, q))
    {
      SumSame(xs, Column(m', q), Column(m, q));
    }
  }

  lemma TrafficIsShipped(h: Hose, t: TenantId, flows: set<FlowKey>, m: FlowKey -> real)
    requires NonNegative(h) && forall k :: m(k) == Traffic(h, t, flows)(k)
    ensures Shipped(h, t, flows, m)
  {
    forall l
      ensures ShippedClass(h, t, flows, l, m)
    {
      SamePlan(Sources(flows, l), Sinks(flows, l), Send(h, t, l), Recv(h, t, l), ClassPlan(h, t, flows, l), Matrix(l, m));
    }
  }

  /** What a tenant reserves on a link is exactly the most that its contracts let it send between the
      sources and the sinks of its flows there, also from a PoP to itself: no allowed traffic is more,
      and some is as much. */
  lemma ReserveIsWorstCase(h: Hose, t: TenantId, flows: set<FlowKey>)
    requires NonNegative(h)
    ensures forall m :: Within(h, t, Pairs(flows), m) ==> Sum(Pairs(flows), m) <= TenantReserve(h, t, flows)
    ensures exists m :: Within(h, t, Pairs(flows), m) && Sum(Pairs(flows), m) == TenantReserve(h, t, flows)
  {
    forall m | Within(h, t, Pairs(flows), m)
      ensures Sum(Pairs(flows), m) <= TenantReserve(h, t, flows)
    {
      TenantBound(h, t, Pairs(flows), m);
      PairsEnds(flows);
      EndsDecide(h, t, flows, Pairs(flows));
    }
    TrafficIsShipped(h, t, flows, Traffic(h, t, flows));
    ShippedIsWithin(h, t, flows, Traffic(h, t, flows));
    ShippedTotal(h, t, flows, Traffic(h, t, flows));
  }

  /** So where the flows are all the pairs of some sources with some sinks, traffic over these flows
      alone uses the whole reservation. */
  lemma FullMeshIsTight(h: Hose, t: TenantId, sources: set<NodeId>, sinks: set<NodeId>, l: Color)
    requires NonNegative(h)
    ensures var flows := Mesh(sources, sinks, l);
            exists m :: Within(h, t, flows, m) && Sum(flows, m) == TenantReserve(h, t, flows)
  {
    MeshIsPairs(sources, sinks, l);
    ReserveIsWorstCase(h, t, Mesh(sources, sinks, l));
  }

  ghost function Mesh(sources: set<NodeId>, sinks: set<NodeId>, l: Color): set<FlowKey> {
    set p, q | p in sources && q in sinks :: FlowKey(p, q, l)
  }

  lemma MeshIsPairs(sources: set<NodeId>, sinks: set<NodeId>, l: Color)
    ensures Pairs(Mesh(sources, sinks, l)) == Mesh(sources, sinks, l)
  {
    forall k | k in Mesh(sources, sinks, l)
      ensures k in Pairs(Mesh(sources, sinks, l))
    {
      PairOf(Mesh(sources, sinks, l), k, k);
    }
  }

  /** In particular one class never reserves more than its sources may send, nor more than its sinks
      may take. */
  lemma ReserveWithinBothEnds(h: Hose, t: TenantId, flows: set<FlowKey>, l: Color)
    requires forall k :: k in flows ==> k.color == l
    ensures TenantReserve(h, t, flows) <= Sum((set k | k in flows :: k.source), p => h.send(t, p, l))
    ensures TenantReserve(h, t, flows) <= Sum((set k | k in flows :: k.sink), p => h.recv(t, p, l))
  {
    assert Sources(flows, l) == set k | k in flows :: k.source;
    assert Sinks(flows, l) == set k | k in flows :: k.sink;
    var f := (c: Color) => ColorReserve(h, t, flows, c);
    if flows == {} {
      assert Colors(flows) == {};
      assert Sources(flows, l) == {} && Sinks(flows, l) == {};
    } else {
      assert Colors(flows) == {l};
      SumTake({l}, l, f);
      assert {l} - {l} == {};
    }
  }

  // ---------- All tenants together ----------

  ghost function AllPairs(booked: set<PathKey>): set<PathKey> {
    set a, b | a in booked && b in booked && a.tenant == b.tenant && a.flow.color == b.flow.color ::
      PathKey(a.tenant, FlowKey(a.flow.source, b.flow.sink, a.flow.color))
  }

  lemma PairsOfTenant(booked: set<PathKey>, t: TenantId)
    ensures FlowsOf(AllPairs(booked), t) == Pairs(FlowsOf(booked, t))
  {
    forall f | f in Pairs(FlowsOf(booked, t))
      ensures f in FlowsOf(AllPairs(booked), t)
    {
      var a, b :| a in FlowsOf(booked, t) && b in FlowsOf(booked, t) && a.color == b.color && f == FlowKey(a.source, b.sink, a.color);
      assert PathKey(t, a) in booked && PathKey(t, b) in booked;
      assert PathKey(t, f) in AllPairs(booked);
    }
    forall f | f in FlowsOf(AllPairs(booked), t)
      ensures f in Pairs(FlowsOf(booked, t))
    {
      var k :| k in AllPairs(booked) && k.tenant == t && k.flow == f;
      var a, b :| a in booked && b in booked && a.tenant == b.tenant && a.flow.color == b.flow.color &&
                  k == PathKey(a.tenant, FlowKey(a.flow.source, b.flow.sink, a.flow.color));
      assert a.flow in FlowsOf(booked, t) && b.flow in FlowsOf(booked, t);
      PairOf(FlowsOf(booked, t), a.flow, b.flow);
    }
  }

  lemma SameTenants(booked: set<PathKey>)
    ensures TenantsOf(AllPairs(booked)) == TenantsOf(booked)
  {
    forall t | t in TenantsOf(booked)
      ensures t in TenantsOf(AllPairs(booked))
    {
      var k :| k in booked && k.tenant == t;
      assert PathKey(t, FlowKey(k.flow.source, k.flow.sink, k.flow.color)) in AllPairs(booked);
    }
  }

  lemma SameLoad(h: Hose, booked: set<PathKey>)
    ensures Load(h, AllPairs(booked)) == Load(h, booked)
  {
    var f, g := (t: TenantId) => TenantReserve(h, t, FlowsOf(AllPairs(booked), t)), (t: TenantId) => TenantReserve(h, t, FlowsOf(booked, t));
    SameTenants(booked);
    forall t | t in TenantsOf(booked)
      ensures f(t) == g(t)
    {
      PairsOfTenant(booked, t);
      PairsEnds(FlowsOf(booked, t));
      EndsDecide(h, t, FlowsOf(booked, t), Pairs(FlowsOf(booked, t)));
    }
    SumSame(TenantsOf(booked), f, g);
  }

  ghost function AllTraffic(h: Hose, booked: set<PathKey>): PathKey -> real
    requires NonNegative(h)
  {
    (k: PathKey) => Traffic(h, k.tenant, FlowsOf(booked, k.tenant))(k.flow)
  }

  lemma AllTrafficIsShipped(h: Hose, booked: set<PathKey>, t: TenantId)
    requires NonNegative(h)
    ensures Shipped(h, t, FlowsOf(booked, t), Restrict(AllTraffic(h, booked), t))
  {
    TrafficIsShipped(h, t, FlowsOf(booked, t), Restrict(AllTraffic(h, booked), t));
  }

  lemma AllTrafficAdmissible(h: Hose, booked: set<PathKey>)
    requires NonNegative(h)
    ensures Admissible(h, AllPairs(booked), AllTraffic(h, booked))
  {
    forall t
      ensures Within(h, t, FlowsOf(AllPairs(booked), t), Restrict(AllTraffic(h, booked), t))
    {
      PairsOfTenant(booked, t);
      AllTrafficIsShipped(h, booked, t);
      ShippedIsWithin(h, t, FlowsOf(booked, t), Restrict(AllTraffic(h, booked), t));
    }
  }

  lemma TenantTotal(h: Hose, booked: set<PathKey>, t: TenantId)
    requires NonNegative(h)
    ensures Sum(OfTenant(AllPairs(booked), t), AllTraffic(h, booked)) == TenantReserve(h, t, FlowsOf(booked, t))
  {
    TenantTraffic(AllPairs(booked), t, AllTraffic(h, booked));
    PairsOfTenant(booked, t);
    AllTrafficIsShipped(h, booked, t);
    ShippedTotal(h, t, FlowsOf(booked, t), Restrict(AllTraffic(h, booked), t));
  }

  lemma AllTrafficTotal(h: Hose, booked: set<PathKey>)
    requires NonNegative(h)
    ensures Sum(AllPairs(booked), AllTraffic(h, booked)) == Load(h, booked)
  {
    var key, m := (k: PathKey) => k.tenant, AllTraffic(h, booked);
    var part := (t: TenantId) => TenantReserve(h, t, FlowsOf(booked, t));
    SameTenants(booked);
    assert Image(AllPairs(booked), key) == TenantsOf(booked);
    forall t | t in TenantsOf(booked)
      ensures part(t) == Sum(Fiber(AllPairs(booked), key, t), m)
    {
      assert Fiber(AllPairs(booked), key, t) == OfTenant(AllPairs(booked), t);
      TenantTotal(h, booked, t);
    }
    SumPartition(AllPairs(booked), key, m, part);
  }

  /** The load of a link is exactly the most that all contracts together allow between the sources and
      sinks booked on it. So an admission refused is one that some allowed traffic would overload. */
  lemma LoadIsWorstCase(h: Hose, booked: set<PathKey>)
    requires NonNegative(h)
    ensures forall m :: Admissible(h, AllPairs(booked), m) ==> Sum(AllPairs(booked), m) <= Load(h, booked)
    ensures exists m :: Admissible(h, AllPairs(booked), m) && Sum(AllPairs(booked), m) == Load(h, booked)
  {
    SameLoad(h, booked);
    forall m | Admissible(h, AllPairs(booked), m)
      ensures Sum(AllPairs(booked), m) <= Load(h, booked)
    {
      HoseCoversTraffic(h, AllPairs(booked), AllPairs(booked), m);
    }
    AllTrafficAdmissible(h, booked);
    AllTrafficTotal(h, booked);
  }
}
